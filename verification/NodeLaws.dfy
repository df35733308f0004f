/** What the rules of a single node mean, told in the fields of the nodes they
    read and write and apart from how they are computed. */
module NodeLaws {
  import opened Collections
  import opened Ranking
  import opened MemoryNodes

  // ----- Shared quantities -----

  /** A quotient, read only where the divisor is positive. */
  ghost function Over(x: real, y: real): real { if y > 0.0 then x / y else 0.0 }

  /** Coordinate by coordinate, `sum` is `base` with `scale` times `more` added. */
  ghost predicate MovedBy(base: Vector, scale: real, more: Vector, sum: Vector) {
    && |sum| == |base|
    && forall i | 0 <= i < |base| :: sum[i] - base[i] == if i < |more| then scale * more[i] else 0.0
  }

  /** The product of two vectors sums the products of their coordinates: nothing for
      none, and one product more for one coordinate more. */
  lemma {:induction false} DotExactly(a: Vector, b: Vector, x: real, y: real)
    requires |a| == |b|
    ensures Dot([], []) == 0.0 && Dot(a + [x], b + [y]) == Dot(a, b) + x * y
    decreases |a|
  {
    if a != [] {
      DotExactly(a[1..], b[1..], x, y);
      assert (a + [x])[1..] == a[1..] + [x] && (b + [y])[1..] == b[1..] + [y];
    }
  }

  /** One more, unless the counter is full. */
  ghost predicate CountedUp(before: nat, after: nat) {
    (before < U32_MAX && after == before + 1) || (before >= U32_MAX && after == U32_MAX)
  }

  /** A concentration is trusted in full once its mass suffices, and in proportion before. */
  ghost predicate Trusted(num: Numerics, cfg: Config, kappa: real, count: real, confidence: real) {
    var certainty := num.sigmoid(cfg.concentrationScale * kappa - cfg.concentrationBias);
    var enough := Max(cfg.confidenceMassMinimum, cfg.eps);
    && (count >= enough ==> confidence == certainty)
    && (count < enough ==> confidence == certainty * Over(count, enough))
  }

  /** Concentration and confidence follow from the sufficient sum and the effective count. */
  ghost predicate Concentrated(num: Numerics, cfg: Config, node: MemoryNode) {
    && (node.effectiveCount >= cfg.eps ==>
          node.kappa == num.kappa(Over(num.norm(node.sufficientSum), node.effectiveCount), cfg.dimension, cfg.eps))
    && (node.effectiveCount < cfg.eps ==>
          node.kappa == num.kappa(Over(num.norm(node.sufficientSum), cfg.eps), cfg.dimension, cfg.eps))
    && Trusted(num, cfg, node.kappa, node.effectiveCount, node.confidence)
  }

  lemma Product(a: real, b: real)
    ensures a >= 0.0 && b >= 0.0 ==> a * b >= 0.0
    ensures a > 0.0 && b > 0.0 ==> a * b > 0.0
  {
  }

  /** Comparing with a quotient is comparing with what it divides. */
  lemma Compare(x: real, q: real, a: real, b: real)
    requires b > 0.0 && q * b == a
    ensures x <= q <==> x * b <= a
  {
    if x <= q {
      Ordered(x, q, b);
    } else {
      Ordered(q, x, b);
    }
  }

  lemma Ordered(x: real, y: real, b: real)
    requires b > 0.0
    ensures x <= y ==> x * b <= y * b
    ensures x < y ==> x * b < y * b
  {
    Product(y - x, b);
    assert (y - x) * b == y * b - x * b;
  }

  lemma Divides(a: real, b: real) returns (q: real)
    requires b > 0.0
    ensures q == a / b && q * b == a
  {
    q := a / b;
  }

  lemma RatioAtLeastOne(x: real, y: real)
    requires y > 0.0
    ensures x >= y <==> x / y >= 1.0
  {
    var q := Divides(x, y);
    Compare(1.0, q, x, y);
  }

  lemma ConfidenceExactly(num: Numerics, cfg: Config, kappa: real, count: real)
    requires cfg.Valid(num.pi)
    ensures Trusted(num, cfg, kappa, count, Confidence(num, cfg, kappa, count))
  {
    var enough := Max(cfg.confidenceMassMinimum, cfg.eps);
    assert enough > 0.0;
    assert num.Div(count, enough) == count / enough;
    RatioAtLeastOne(count, enough);
  }

  /** A longer memory, kept within its bounds. */
  ghost predicate TauStretched(cfg: Config, before: real, after: real) {
    var longer := before + before * cfg.dreamStickiness;
    && (cfg.tauMin <= longer <= cfg.tauMax ==> after == longer)
    && (longer < cfg.tauMin ==> after == cfg.tauMin)
    && (longer > cfg.tauMax ==> after == cfg.tauMax)
  }

  lemma TauStretchedExactly(num: Numerics, cfg: Config, tau: real)
    requires cfg.Valid(num.pi)
    ensures TauStretched(cfg, tau, LongerTau(cfg, tau))
  {
    assert tau * (1.0 + cfg.dreamStickiness) == tau + tau * cfg.dreamStickiness;
  }

  // ----- A new node -----

  /** A node that knows one event, at one vector, and nothing else. */
  ghost predicate IsNew(num: Numerics, cfg: Config, node: MemoryNode, event: EventId, vector: Vector, now: real,
                        source: Option<string>, metadata: map<string, string>)
  {
    && node.eventIds == [event] && node.centroid == node.sufficientSum == vector
    && node.effectiveCount == 1.0 && node.weight == cfg.initialWeight
    && node.kappa == num.kappa(1.0, cfg.dimension, cfg.eps)
    && Trusted(num, cfg, node.kappa, 1.0, node.confidence)
    && node.tau == cfg.tau0 && node.lastSeen == node.lastDecay == now
    && node.atypicalCount == 0 && node.tension.None? && node.level == 0 && node.children == []
    && node.metadata == metadata
    && node.sourceCounts.Keys == (if source.Some? then {source.value} else {})
    && (source.Some? ==> node.visits == node.sourceCounts[source.value] == 1.0)
    && (source.None? ==> node.visits == 0.0)
  }

  lemma FreshIsNew(num: Numerics, cfg: Config, id: NodeId, event: EventId, input: Vector, now: real,
                   source: Option<string>, metadata: map<string, string>)
    requires cfg.Valid(num.pi)
    ensures IsNew(num, cfg, Fresh(num, cfg, id, event, input, now, source, metadata), event, input, now, source,
                  metadata)
    ensures Fresh(num, cfg, id, event, input, now, source, metadata).id == id
  {
    ConfidenceExactly(num, cfg, num.kappa(1.0, cfg.dimension, cfg.eps), 1.0);
    hide Confidence;
  }

  // ----- Decay -----

  ghost function ShareOf(rho: real, x: real): real { rho * x }

  /** Sums, counts and weight shrink by one factor; nothing else changes but the date. */
  ghost predicate ShrunkBy(node: MemoryNode, rho: real, now: real, later: MemoryNode) {
    && later.lastDecay == now && later.weight == ShareOf(rho, node.weight)
    && later.effectiveCount == ShareOf(rho, node.effectiveCount)
    && |later.sufficientSum| == |node.sufficientSum|
    && (forall i | 0 <= i < |node.sufficientSum| :: later.sufficientSum[i] == ShareOf(rho, node.sufficientSum[i]))
    && later.sourceCounts.Keys == node.sourceCounts.Keys
    && (forall s | s in node.sourceCounts :: later.sourceCounts[s] == ShareOf(rho, node.sourceCounts[s]))
    && node == later.(sufficientSum := node.sufficientSum, effectiveCount := node.effectiveCount,
                      weight := node.weight, sourceCounts := node.sourceCounts, lastDecay := node.lastDecay)
  }

  /** A node shrinks by the exponential of the time that passed in its own time
      scale; a time already reached changes nothing. */
  ghost predicate DecaysTo(num: Numerics, cfg: Config, node: MemoryNode, now: real, later: MemoryNode) {
    && (now <= node.lastDecay ==> later == node)
    && (now > node.lastDecay ==>
          ShrunkBy(node, num.exp(Over(node.lastDecay - now, Max(node.tau, cfg.eps))), now, later))
  }

  lemma DecayedExactly(num: Numerics, cfg: Config, node: MemoryNode, now: real)
    requires cfg.Valid(num.pi)
    ensures DecaysTo(num, cfg, node, now, Decayed(num, cfg, node, now))
  {
  }

  ghost predicate SumToProduct(num: Numerics, x: real, y: real) { num.exp(x + y) == num.exp(x) * num.exp(y) }

  lemma RatesMultiply(num: Numerics, start: real, early: real, late: real, tau: real)
    requires tau > 0.0 && SumToProduct(num, (start - early) / tau, (early - late) / tau)
    ensures num.exp(Over(start - late, tau)) == num.exp(Over(start - early, tau)) * num.exp(Over(early - late, tau))
  {
    assert (start - early) / tau + (early - late) / tau == (start - late) / tau;
  }

  lemma Chained(x: real, y: real, z: real, a: real, b: real, c: real)
    requires y == ShareOf(a, x) && z == ShareOf(b, y) && c == ShareOf(a, b)
    ensures z == ShareOf(c, x)
  {
    assert b * (a * x) == (a * b) * x;
  }

  lemma SameSums(node: MemoryNode, first: MemoryNode, second: MemoryNode, whole: MemoryNode, a: real, b: real, c: real)
    requires ShrunkBy(node, a, first.lastDecay, first) && ShrunkBy(first, b, second.lastDecay, second)
    requires ShrunkBy(node, c, whole.lastDecay, whole) && c == ShareOf(a, b)
    ensures second.sufficientSum == whole.sufficientSum && second.sourceCounts == whole.sourceCounts
  {
    hide ShareOf;
    forall i | 0 <= i < |node.sufficientSum|
      ensures second.sufficientSum[i] == whole.sufficientSum[i]
    {
      Chained(node.sufficientSum[i], first.sufficientSum[i], second.sufficientSum[i], a, b, c);
    }
    forall s | s in node.sourceCounts
      ensures second.sourceCounts[s] == whole.sourceCounts[s]
    {
      Chained(node.sourceCounts[s], first.sourceCounts[s], second.sourceCounts[s], a, b, c);
    }
  }

  lemma ShrunkTwice(node: MemoryNode, first: MemoryNode, second: MemoryNode, whole: MemoryNode,
                    a: real, b: real, c: real)
    requires ShrunkBy(node, a, first.lastDecay, first) && ShrunkBy(first, b, second.lastDecay, second)
    requires ShrunkBy(node, c, second.lastDecay, whole) && c == ShareOf(a, b)
    ensures second == whole
  {
    hide ShareOf;
    SameSums(node, first, second, whole, a, b, c);
    Chained(node.weight, first.weight, second.weight, a, b, c);
    Chained(node.effectiveCount, first.effectiveCount, second.effectiveCount, a, b, c);
  }

  /** Decay in two stages is decay in one: how often a node is brought up to date
      on the way does not matter. */
  lemma DecayedTwice(num: Numerics, cfg: Config, node: MemoryNode, early: real, late: real)
    requires cfg.Valid(num.pi) && early <= late
    requires forall x, y :: SumToProduct(num, x, y)
    ensures Decayed(num, cfg, Decayed(num, cfg, node, early), late) == Decayed(num, cfg, node, late)
  {
    hide Decayed, SumToProduct, Over;
    var first, whole := Decayed(num, cfg, node, early), Decayed(num, cfg, node, late);
    var second := Decayed(num, cfg, first, late);
    DecayedExactly(num, cfg, node, early);
    DecayedExactly(num, cfg, node, late);
    DecayedExactly(num, cfg, first, late);
    if node.lastDecay < early < late {
      var tau := Max(node.tau, cfg.eps);
      RatesMultiply(num, node.lastDecay, early, late, tau);
      ShrunkTwice(node, first, second, whole, num.exp(Over(node.lastDecay - early, tau)),
                  num.exp(Over(early - late, tau)), num.exp(Over(node.lastDecay - late, tau)));
    }
  }

  // ----- An observation: the statistics -----

  /** The angle whose cosine is `x`, read at the nearest bound when rounding left the range. */
  ghost function AngleOf(num: Numerics, x: real): real {
    if x >= 1.0 then num.acos(1.0) else if x <= -1.0 then num.acos(-1.0) else num.acos(x)
  }

  lemma AngleExactly(num: Numerics, x: real)
    ensures num.acos(ClampUnit(x)) == AngleOf(num, x)
  {
  }

  /** How much of its time scale a node has gone unseen, at most all of it. */
  ghost function Staleness(cfg: Config, node: MemoryNode, now: real): real {
    var scale := Max(node.tau, cfg.eps);
    if now <= node.lastSeen then 0.0
    else if now - node.lastSeen >= scale then 1.0
    else Over(now - node.lastSeen, scale)
  }

  /** The weight an observation brings: more to a stale node, and to an uncertain one. */
  ghost function Eagerness(cfg: Config, node: MemoryNode, now: real): real {
    var doubt := 1.0 - node.confidence;
    cfg.gamma0 * ((1.0 + cfg.lambdaAge * Staleness(cfg, node, now)) * (1.0 + cfg.lambdaUncertainty * doubt))
  }

  /** The centroid turns by its share of the angle, but never by more than the bound. */
  ghost predicate Turned(num: Numerics, cfg: Config, centroid: Vector, input: Vector, share: real, angle: real,
                         after: Vector)
  {
    && (angle < 0.00000001 ==> after == input)
    && (angle >= 0.00000001 && share * angle <= cfg.maxUpdateAngle ==>
          after == num.slerp(centroid, input, share, cfg.eps))
    && (angle >= 0.00000001 && share * angle > cfg.maxUpdateAngle ==>
          after == num.slerp(centroid, input, Over(cfg.maxUpdateAngle, angle), cfg.eps))
  }

  ghost predicate SourceCounted(before: map<string, real>, source: Option<string>, after: map<string, real>) {
    match source
    case None => after == before
    case Some(name) =>
      && after.Keys == before.Keys + {name} && after - {name} == before - {name}
      && after[name] == if name in before then before[name] + 1.0 else 1.0
  }

  /** Centroid, sufficient sum and effective count move by the input's share. */
  ghost predicate MovesTowards(num: Numerics, cfg: Config, node: MemoryNode, input: Vector, similarity: real, now: real,
                               after: MemoryNode)
  {
    var gamma := Eagerness(cfg, node, now);
    var share := num.Div(gamma, node.weight + gamma);
    && Turned(num, cfg, node.centroid, input, share, AngleOf(num, similarity), after.centroid)
    && after.effectiveCount - node.effectiveCount == share * similarity
    && MovedBy(node.sufficientSum, after.effectiveCount - node.effectiveCount, input, after.sufficientSum)
  }

  /** The visit, its event, its time and its source are recorded, and nothing else. */
  ghost predicate Records(cfg: Config, node: MemoryNode, event: EventId, similarity: real, now: real,
                          source: Option<string>, after: MemoryNode)
  {
    && after.weight - node.weight == cfg.delta0 * similarity
    && after.visits - node.visits == 1.0 && after.lastSeen == now
    && TauStretched(cfg, node.tau, after.tau)
    && after.eventIds == (if event in node.eventIds then node.eventIds else node.eventIds + [event])
    && SourceCounted(node.sourceCounts, source, after.sourceCounts)
    && after.id == node.id && after.lastDecay == node.lastDecay && after.level == node.level
    && after.children == node.children && after.metadata == node.metadata
    && after.tension == node.tension && after.atypicalCount == node.atypicalCount
  }

  /** The statistics after one observation. */
  ghost predicate LearnsFrom(num: Numerics, cfg: Config, node: MemoryNode, event: EventId, input: Vector,
                             similarity: real, now: real, source: Option<string>, after: MemoryNode)
  {
    && MovesTowards(num, cfg, node, input, similarity, now, after) && Concentrated(num, cfg, after)
    && Records(cfg, node, event, similarity, now, source, after)
  }

  lemma StalenessExactly(cfg: Config, node: MemoryNode, now: real, ratio: real)
    requires Max(node.tau, cfg.eps) > 0.0 && ratio == Max(now - node.lastSeen, 0.0) / Max(node.tau, cfg.eps)
    requires ratio >= 1.0 <==> Max(now - node.lastSeen, 0.0) >= Max(node.tau, cfg.eps)
    ensures Staleness(cfg, node, now) == Min(ratio, 1.0)
  {
    if now <= node.lastSeen {
      assert ratio == 0.0;
    }
  }

  lemma EagernessExactly(num: Numerics, cfg: Config, node: MemoryNode, now: real)
    requires cfg.Valid(num.pi)
    ensures Gain(num, cfg, node, now) == Eagerness(cfg, node, now)
  {
    var scale := Max(node.tau, cfg.eps);
    assert scale > 0.0;
    var elapsed := Max(now - node.lastSeen, 0.0);
    RatioAtLeastOne(elapsed, scale);
    StalenessExactly(cfg, node, now, elapsed / scale);
    hide Staleness, Max, Min;
    Associated(cfg.gamma0, 1.0 + cfg.lambdaAge * Staleness(cfg, node, now),
               1.0 + cfg.lambdaUncertainty * (1.0 - node.confidence));
  }

  lemma Associated(x: real, y: real, z: real)
    ensures x * (y * z) == x * y * z
  {
  }

  lemma Quotient(x: real, a: real, b: real)
    requires b > 0.0
    ensures x <= a / b <==> x * b <= a
  {
    var q := Divides(a, b);
    Compare(x, q, a, b);
  }

  lemma TurnedExactly(num: Numerics, cfg: Config, centroid: Vector, input: Vector, share: real, angle: real)
    ensures Turned(num, cfg, centroid, input, share, angle, Drawn(num, cfg, centroid, input, share, angle))
  {
    if angle >= 0.00000001 {
      Quotient(share, cfg.maxUpdateAngle, angle);
    }
  }

  lemma AddScaledMoves(base: Vector, scale: real, more: Vector)
    ensures MovedBy(base, scale, more, AddScaled(base, scale, more))
  {
  }

  lemma AppendOne(events: seq<EventId>, event: EventId)
    ensures AppendNew(events, [event]) == if event in events then events else events + [event]
  {
    assert [event][1..] == [];
  }

  lemma RefinedParts(num: Numerics, cfg: Config, node: MemoryNode, event: EventId, input: Vector, similarity: real,
                     now: real, source: Option<string>)
    ensures var after := Refined(num, cfg, node, event, input, similarity, now, source);
      var gamma := Gain(num, cfg, node, now);
      var beta := num.Div(gamma, node.weight + gamma);
      && after.centroid == Drawn(num, cfg, node.centroid, input, beta, num.acos(ClampUnit(similarity)))
      && after.sufficientSum == AddScaled(node.sufficientSum, Portion(beta, similarity), input)
      && after.effectiveCount == node.effectiveCount + Portion(beta, similarity)
  {
    hide Portion, Gain, Drawn, AddScaled, Confidence, AppendNew, ClampUnit, LongerTau, Numerics.Div;
  }

  lemma RefinedMoves(num: Numerics, cfg: Config, node: MemoryNode, event: EventId, input: Vector, similarity: real,
                     now: real, source: Option<string>)
    requires cfg.Valid(num.pi)
    ensures MovesTowards(num, cfg, node, input, similarity, now,
                         Refined(num, cfg, node, event, input, similarity, now, source))
  {
    hide Refined, Eagerness, Gain, Drawn, Turned, MovedBy, AddScaled, AngleOf, ClampUnit, Numerics.Div, Config.Valid;
    var gamma := Eagerness(cfg, node, now);
    var share := num.Div(gamma, node.weight + gamma);
    var eta := Portion(share, similarity);
    RefinedParts(num, cfg, node, event, input, similarity, now, source);
    EagernessExactly(num, cfg, node, now);
    TurnedExactly(num, cfg, node.centroid, input, share, AngleOf(num, similarity));
    AddScaledMoves(node.sufficientSum, eta, input);
    AngleExactly(num, similarity);
    assert eta == Refined(num, cfg, node, event, input, similarity, now, source).effectiveCount - node.effectiveCount;
  }

  lemma RefinedRecords(num: Numerics, cfg: Config, node: MemoryNode, event: EventId, input: Vector, similarity: real,
                       now: real, source: Option<string>)
    requires cfg.Valid(num.pi)
    ensures Records(cfg, node, event, similarity, now, source,
                    Refined(num, cfg, node, event, input, similarity, now, source))
  {
    TauStretchedExactly(num, cfg, node.tau);
    AppendOne(node.eventIds, event);
    hide TauStretched, LongerTau, Confidence, AddScaled, AppendNew, Gain, Drawn, Portion;
    var after := Refined(num, cfg, node, event, input, similarity, now, source);
    assert SourceCounted(node.sourceCounts, source, after.sourceCounts);
  }

  lemma RefinedConcentrates(num: Numerics, cfg: Config, node: MemoryNode, event: EventId, input: Vector,
                            similarity: real, now: real, source: Option<string>)
    requires cfg.Valid(num.pi)
    ensures Concentrated(num, cfg, Refined(num, cfg, node, event, input, similarity, now, source))
  {
    var after := Refined(num, cfg, node, event, input, similarity, now, source);
    ConfidenceExactly(num, cfg, after.kappa, after.effectiveCount);
    hide Trusted, Confidence, AddScaled, AppendNew, Gain, Drawn, LongerTau, Portion;
  }

  lemma RefinedExactly(num: Numerics, cfg: Config, node: MemoryNode, event: EventId, input: Vector, similarity: real,
                       now: real, source: Option<string>)
    requires cfg.Valid(num.pi)
    ensures LearnsFrom(num, cfg, node, event, input, similarity, now, source,
                       Refined(num, cfg, node, event, input, similarity, now, source))
  {
    hide Refined, MovesTowards, Records, Concentrated;
    RefinedMoves(num, cfg, node, event, input, similarity, now, source);
    RefinedRecords(num, cfg, node, event, input, similarity, now, source);
    RefinedConcentrates(num, cfg, node, event, input, similarity, now, source);
  }

  // ----- An observation: the tension -----

  /** Similar enough to belong, but further off than the node's own spread allows. */
  ghost predicate Unexpected(num: Numerics, cfg: Config, node: MemoryNode, similarity: real) {
    var spread := AngleOf(num, Over(num.norm(node.sufficientSum), Max(node.effectiveCount, cfg.eps)));
    similarity >= cfg.thetaSimilarity && AngleOf(num, similarity) - spread > cfg.zeta
  }

  /** The log Bayes factor of a cluster apart from its node: how much better its own
      direction explains it than the node's, less the price of another node. */
  ghost predicate Weighs(num: Numerics, cfg: Config, centroid: Vector, t: Tension) {
    && (t.effectiveCount < cfg.eps ==> t.logBayesFactor == 0.0)
    && (t.effectiveCount >= cfg.eps ==>
      var resultant := num.norm(t.sufficientSum);
      var kappa := num.kappa(Over(resultant, t.effectiveCount + cfg.kappaRegularization), cfg.dimension, cfg.eps);
      var samples := Max(Max(t.evidenceCount as real, cfg.effectiveSampleMinimum), cfg.eps);
      t.logBayesFactor + cfg.splitPenalty * num.ln(samples) == kappa * (resultant - Dot(centroid, t.sufficientSum)))
  }

  /** The first unexpected sample opens a tension between the node and itself. */
  ghost predicate Opens(num: Numerics, cfg: Config, node: MemoryNode, input: Vector, angle: real, t: Tension) {
    && t.trajectory == [input] && t.sufficientSum == input && t.effectiveCount == 1.0
    && t.evidenceCount == 1 && t.logBayesFactor == 0.0 && t.uncertaintyRadius == angle
    && t.center == num.unit(Plus(input, node.centroid), cfg.eps) && MovedBy(input, -1.0, node.centroid, t.vector)
  }

  /** Each further one joins it, and all of it is weighed again. */
  ghost predicate Joins(num: Numerics, cfg: Config, node: MemoryNode, input: Vector, angle: real, t: Tension,
                        after: Tension)
  {
    && after.trajectory == t.trajectory + [input] && MovedBy(t.sufficientSum, 1.0, input, after.sufficientSum)
    && after.effectiveCount - t.effectiveCount == 1.0 && CountedUp(t.evidenceCount, after.evidenceCount)
    && after.uncertaintyRadius == angle && after.center == num.unit(after.sufficientSum, cfg.eps)
    && MovedBy(input, -1.0, node.centroid, after.vector) && Weighs(num, cfg, node.centroid, after)
  }

  /** An expected sample only counts as evidence, and all of it is weighed again. */
  ghost predicate Hears(num: Numerics, cfg: Config, node: MemoryNode, t: Tension, after: Tension) {
    && after == t.(evidenceCount := after.evidenceCount, logBayesFactor := after.logBayesFactor)
    && CountedUp(t.evidenceCount, after.evidenceCount) && Weighs(num, cfg, node.centroid, after)
  }

  /** What an observation does to the tension of a node already updated by it. */
  ghost predicate JudgesTo(num: Numerics, cfg: Config, node: MemoryNode, input: Vector, similarity: real,
                           after: MemoryNode)
  {
    var angle := AngleOf(num, similarity);
    && after == node.(tension := after.tension, atypicalCount := after.atypicalCount)
    && (Unexpected(num, cfg, node, similarity) ==>
          && after.tension.Some? && CountedUp(node.atypicalCount, after.atypicalCount)
          && (node.tension.None? ==> Opens(num, cfg, node, input, angle, after.tension.value))
          && (node.tension.Some? ==> Joins(num, cfg, node, input, angle, node.tension.value, after.tension.value)))
    && (!Unexpected(num, cfg, node, similarity) && node.tension.None? ==> after == node)
    && (!Unexpected(num, cfg, node, similarity) && node.tension.Some? ==>
          exists heard ::
            && Hears(num, cfg, node, node.tension.value, heard)
            && (ToClear(num, cfg, heard) ==> after.tension == None && after.atypicalCount == 0)
            && (!ToClear(num, cfg, heard) ==> after == node.(tension := Some(heard))))
  }

  /** Enough evidence, and too improbable a split. */
  ghost predicate ToClear(num: Numerics, cfg: Config, t: Tension) {
    t.evidenceCount >= cfg.minimumTensionEvidence && num.sigmoid(t.logBayesFactor) < cfg.clearProbability
  }

  lemma AtypicalExactly(num: Numerics, cfg: Config, node: MemoryNode, similarity: real)
    requires cfg.Valid(num.pi)
    ensures Atypical(num, cfg, node, similarity) <==> Unexpected(num, cfg, node, similarity)
  {
  }

  lemma WeighedExactly(num: Numerics, cfg: Config, centroid: Vector, t: Tension)
    requires cfg.Valid(num.pi)
    ensures var after := Weighed(num, cfg, centroid, t);
      Weighs(num, cfg, centroid, after) && after == t.(logBayesFactor := after.logBayesFactor)
  {
    hide Dot;
  }

  lemma DifferenceMoves(input: Vector, centroid: Vector)
    requires |input| == |centroid|
    ensures MovedBy(input, -1.0, centroid, Plus(input, Scaled(centroid, -1.0)))
  {
  }

  lemma WidenedExactly(num: Numerics, cfg: Config, node: MemoryNode, input: Vector, angle: real)
    requires cfg.Valid(num.pi) && node.tension.Some? && |input| == |node.centroid|
    ensures Joins(num, cfg, node, input, angle, node.tension.value,
                  Weighed(num, cfg, node.centroid, Widened(num, cfg, node, input, angle)))
  {
    var t := node.tension.value;
    WeighedExactly(num, cfg, node.centroid, Widened(num, cfg, node, input, angle));
    AddScaledMoves(t.sufficientSum, 1.0, input);
    DifferenceMoves(input, node.centroid);
    hide Weighed, Weighs, MovedBy, AddScaled, Plus, Scaled, Config.Valid;
  }

  lemma OpenedExactly(num: Numerics, cfg: Config, node: MemoryNode, input: Vector, angle: real)
    requires |input| == |node.centroid|
    ensures Opens(num, cfg, node, input, angle,
                  Tension(num.unit(Plus(node.centroid, input), cfg.eps), Plus(input, Scaled(node.centroid, -1.0)),
                          angle, [input], input, 1.0, 0.0, 1))
  {
    DifferenceMoves(input, node.centroid);
    assert Plus(node.centroid, input) == Plus(input, node.centroid);
  }

  lemma HeardExactly(num: Numerics, cfg: Config, node: MemoryNode, t: Tension)
    requires cfg.Valid(num.pi)
    ensures Hears(num, cfg, node, t, Weighed(num, cfg, node.centroid,
                                             t.(evidenceCount := Saturated(t.evidenceCount + 1))))
  {
    WeighedExactly(num, cfg, node.centroid, t.(evidenceCount := Saturated(t.evidenceCount + 1)));
    hide Weighed, Weighs;
  }

  lemma JudgedUnexpected(num: Numerics, cfg: Config, node: MemoryNode, input: Vector, similarity: real)
    requires cfg.Valid(num.pi) && |node.centroid| == |input|
    requires Atypical(num, cfg, node, similarity) && Unexpected(num, cfg, node, similarity)
    requires AngleOf(num, similarity) == num.acos(ClampUnit(similarity))
    ensures JudgesTo(num, cfg, node, input, similarity, Judged(num, cfg, node, input, similarity))
  {
    var angle := AngleOf(num, similarity);
    hide Atypical, Unexpected, AngleOf, ClampUnit, Weighed, Widened, Config.Valid, Opens, Joins, Plus, Scaled;
    if node.tension.Some? {
      WidenedExactly(num, cfg, node, input, angle);
    } else {
      OpenedExactly(num, cfg, node, input, angle);
    }
  }

  lemma JudgedExpected(num: Numerics, cfg: Config, node: MemoryNode, input: Vector, similarity: real)
    requires cfg.Valid(num.pi) && (node.tension.None? ==> node.atypicalCount == 0)
    requires !Atypical(num, cfg, node, similarity) && !Unexpected(num, cfg, node, similarity)
    ensures JudgesTo(num, cfg, node, input, similarity, Judged(num, cfg, node, input, similarity))
  {
    hide Atypical, Unexpected, AngleOf, ClampUnit, Weighed, Widened, Config.Valid, Hears, Plus, Scaled;
    if node.tension.Some? {
      HeardExactly(num, cfg, node, node.tension.value);
    }
  }

  lemma JudgedExactly(num: Numerics, cfg: Config, node: MemoryNode, input: Vector, similarity: real)
    requires cfg.Valid(num.pi) && NodeOk(node, cfg.dimension) && |input| == cfg.dimension
    ensures JudgesTo(num, cfg, node, input, similarity, Judged(num, cfg, node, input, similarity))
  {
    AtypicalExactly(num, cfg, node, similarity);
    AngleExactly(num, similarity);
    hide Atypical, Unexpected, AngleOf, Judged, JudgesTo, Config.Valid;
    if Atypical(num, cfg, node, similarity) {
      JudgedUnexpected(num, cfg, node, input, similarity);
    } else {
      JudgedExpected(num, cfg, node, input, similarity);
    }
  }

  /** One observation: the statistics learn from it, then the tension is judged. */
  ghost predicate ReinforcesTo(num: Numerics, cfg: Config, node: MemoryNode, event: EventId, input: Vector,
                               similarity: real, now: real, source: Option<string>, after: MemoryNode)
  {
    exists learnt :: LearnsFrom(num, cfg, node, event, input, similarity, now, source, learnt)
      && JudgesTo(num, cfg, learnt, input, similarity, after)
  }

  lemma ReinforcedExactly(num: Numerics, cfg: Config, node: MemoryNode, event: EventId, input: Vector,
                          similarity: real, now: real, source: Option<string>)
    requires num.Valid() && cfg.Valid(num.pi) && NodeOk(node, cfg.dimension) && |input| == cfg.dimension
    ensures ReinforcesTo(num, cfg, node, event, input, similarity, now, source,
                         Reinforced(num, cfg, node, event, input, similarity, now, source))
  {
    var learnt := Refined(num, cfg, node, event, input, similarity, now, source);
    RefinedKeeps(num, cfg, node, event, input, similarity, now, source);
    hide Refined, Judged, LearnsFrom, JudgesTo;
    RefinedExactly(num, cfg, node, event, input, similarity, now, source);
    JudgedExactly(num, cfg, learnt, input, similarity);
  }

  // ----- Promotion -----

  /** With little evidence a tension splits off by its count of unexpected samples,
      with enough by how probable a second cluster has become. */
  ghost predicate DueToSplit(num: Numerics, cfg: Config, node: MemoryNode) {
    match node.tension
    case None => false
    case Some(t) =>
      || (t.evidenceCount < cfg.minimumTensionEvidence && node.atypicalCount >= cfg.tensionPromoteCount)
      || (t.evidenceCount >= cfg.minimumTensionEvidence && num.sigmoid(t.logBayesFactor) > cfg.splitProbability)
  }

  ghost predicate DueToClear(num: Numerics, cfg: Config, node: MemoryNode) {
    node.tension.Some? && ToClear(num, cfg, node.tension.value)
  }

  /** Where the node that splits off starts: half way by count, at its own direction by probability. */
  ghost predicate SplitsAt(num: Numerics, cfg: Config, t: Tension, input: Vector, vector: Vector) {
    if t.evidenceCount < cfg.minimumTensionEvidence then vector == t.center
    else if num.norm(t.sufficientSum) <= cfg.eps then vector == input
    else vector == num.unit(t.sufficientSum, cfg.eps)
  }

  /** The parent is rid of its tension; by probability it hands the tension's samples over too. */
  ghost predicate HandsOver(num: Numerics, cfg: Config, node: MemoryNode, t: Tension, parent: MemoryNode) {
    && parent.tension == None && parent.atypicalCount == 0
    && (t.evidenceCount < cfg.minimumTensionEvidence ==> parent == node.(tension := None, atypicalCount := 0))
    && (t.evidenceCount >= cfg.minimumTensionEvidence ==>
          && MovedBy(node.sufficientSum, -1.0, t.sufficientSum, parent.sufficientSum)
          && (node.effectiveCount - t.effectiveCount >= cfg.eps ==>
                parent.effectiveCount == node.effectiveCount - t.effectiveCount)
          && (node.effectiveCount - t.effectiveCount < cfg.eps ==> parent.effectiveCount == cfg.eps)
          && parent.centroid == num.unit(parent.sufficientSum, cfg.eps) && Concentrated(num, cfg, parent)
          && parent == node.(sufficientSum := parent.sufficientSum, effectiveCount := parent.effectiveCount,
                             centroid := parent.centroid, kappa := parent.kappa, confidence := parent.confidence,
                             tension := None, atypicalCount := 0))
  }

  lemma PromotionExactly(num: Numerics, cfg: Config, node: MemoryNode)
    ensures Promotion(num, cfg, node).Split? <==> DueToSplit(num, cfg, node)
    ensures Promotion(num, cfg, node).Split? ==> (Promotion(num, cfg, node).bayesian <==>
              node.tension.Some? && node.tension.value.evidenceCount >= cfg.minimumTensionEvidence)
    ensures Promotion(num, cfg, node).Clear? <==> DueToClear(num, cfg, node) && !DueToSplit(num, cfg, node)
  {
  }

  lemma SplitVectorExactly(num: Numerics, cfg: Config, t: Tension, input: Vector)
    ensures SplitsAt(num, cfg, t, input,
                     SplitVector(num, cfg, t, input, t.evidenceCount >= cfg.minimumTensionEvidence))
  {
  }

  lemma RelievedExactly(num: Numerics, cfg: Config, node: MemoryNode)
    requires cfg.Valid(num.pi) && node.tension.Some?
    ensures HandsOver(num, cfg, node, node.tension.value,
      Relieved(num, cfg, node, node.tension.value.evidenceCount >= cfg.minimumTensionEvidence))
    ensures Relieved(num, cfg, node, false) == node.(tension := None, atypicalCount := 0)
  {
    var t := node.tension.value;
    var parent := Relieved(num, cfg, node, t.evidenceCount >= cfg.minimumTensionEvidence);
    AddScaledMoves(node.sufficientSum, -1.0, t.sufficientSum);
    ConfidenceExactly(num, cfg, parent.kappa, parent.effectiveCount);
    hide Trusted, Confidence, AddScaled, MovedBy;
  }

  /** What becomes of a node whose tension is put to the test: it splits, it is
      cleared, or nothing happens. */
  ghost predicate Settles(num: Numerics, cfg: Config, known: set<NodeId>, winner: NodeId, node: MemoryNode,
                          event: EventId, input: Vector, now: real, source: Option<string>, holder: NodeId,
                          after: Nodes)
  {
    && winner in after && holder in after && after.Keys == known + {holder}
    && (holder !in known <==> DueToSplit(num, cfg, node))
    && (DueToSplit(num, cfg, node) ==>
          && HandsOver(num, cfg, node, node.tension.value, after[winner])
          && IsNew(num, cfg, after[holder], event, after[holder].centroid, now, source, map[])
          && SplitsAt(num, cfg, node.tension.value, input, after[holder].centroid))
    && (!DueToSplit(num, cfg, node) ==>
          && holder == winner
          && after[winner] == (if DueToClear(num, cfg, node) then node.(tension := None, atypicalCount := 0) else node))
  }

  lemma SplitSettles(num: Numerics, cfg: Config, known: set<NodeId>, winner: NodeId, node: MemoryNode, event: EventId,
                     input: Vector, now: real, source: Option<string>, holder: NodeId, after: Nodes)
    requires cfg.Valid(num.pi) && DueToSplit(num, cfg, node)
    requires winner in known && holder !in known && after.Keys == known + {holder}
    requires var bayesian := node.tension.value.evidenceCount >= cfg.minimumTensionEvidence;
      && after[winner] == Relieved(num, cfg, node, bayesian)
      && after[holder] == Fresh(num, cfg, holder, event, SplitVector(num, cfg, node.tension.value, input, bayesian),
                                now, source, map[])
    ensures Settles(num, cfg, known, winner, node, event, input, now, source, holder, after)
  {
    var t := node.tension.value;
    var vector := SplitVector(num, cfg, t, input, t.evidenceCount >= cfg.minimumTensionEvidence);
    FreshIsNew(num, cfg, holder, event, vector, now, source, map[]);
    SplitVectorExactly(num, cfg, t, input);
    RelievedExactly(num, cfg, node);
    hide Relieved, HandsOver, SplitVector, SplitsAt, DueToSplit, Config.Valid, Trusted, Confidence;
  }

  /** The other nodes have no part in it. */
  lemma SettlesStill(num: Numerics, cfg: Config, known: set<NodeId>, winner: NodeId, node: MemoryNode, event: EventId,
                     input: Vector, now: real, source: Option<string>, holder: NodeId, after: Nodes, later: Nodes)
    requires Settles(num, cfg, known, winner, node, event, input, now, source, holder, after)
    requires later.Keys == after.Keys && later[winner] == after[winner] && later[holder] == after[holder]
    ensures Settles(num, cfg, known, winner, node, event, input, now, source, holder, later)
  {
    hide HandsOver, IsNew, SplitsAt, DueToSplit, DueToClear;
  }

  // ----- Merging -----

  /** The concentration of so many samples with a resultant of that length. */
  ghost function Concentration(num: Numerics, cfg: Config, count: real, resultant: real): real {
    num.kappa(Over(resultant, count + cfg.kappaPseudocount), cfg.dimension, cfg.eps)
  }

  /** A node's samples, the length of their resultant, and their concentration. */
  datatype Cluster = Cluster(count: real, resultant: real, kappa: real)

  ghost function ClusterOf(num: Numerics, cfg: Config, node: MemoryNode): Cluster {
    var count, resultant := Max(node.effectiveCount, cfg.eps), num.norm(node.sufficientSum);
    Cluster(count, resultant, Concentration(num, cfg, count, resultant))
  }

  /** Both nodes' samples taken as one cluster. */
  ghost function Union(num: Numerics, cfg: Config, left: MemoryNode, right: MemoryNode): Cluster {
    var count := ClusterOf(num, cfg, left).count + ClusterOf(num, cfg, right).count;
    var resultant := num.norm(Plus(left.sufficientSum, right.sufficientSum));
    Cluster(count, resultant, Concentration(num, cfg, count, resultant))
  }

  /** The von Mises-Fisher log-likelihood of a cluster about its own mean direction. */
  ghost function Likelihood(num: Numerics, cfg: Config, c: Cluster): real {
    c.kappa * c.resultant + c.count * num.logCVmf(c.kappa, cfg.dimension)
  }

  /** How far the union is less concentrated than the less concentrated of the two. */
  ghost function DropOf(num: Numerics, cfg: Config, left: MemoryNode, right: MemoryNode): real {
    var l, r := ClusterOf(num, cfg, left).kappa, ClusterOf(num, cfg, right).kappa;
    var both := Union(num, cfg, left, right).kappa;
    if both >= l || both >= r then 0.0 else if l <= r then l - both else r - both
  }

  /** What one cluster explains better than two. */
  ghost function GainOf(num: Numerics, cfg: Config, left: MemoryNode, right: MemoryNode): real {
    Likelihood(num, cfg, Union(num, cfg, left, right))
      - (Likelihood(num, cfg, ClusterOf(num, cfg, left)) + Likelihood(num, cfg, ClusterOf(num, cfg, right)))
  }

  /** What two clusters cost over one, by their samples. */
  ghost function PriceOf(num: Numerics, cfg: Config, samples: real): real {
    cfg.mergePenalty * num.ln(Max(cfg.eps, Max(cfg.effectiveSampleMinimum, samples)))
  }

  ghost predicate Unpenalized(cfg: Config) {
    cfg.mergePenalty == cfg.maximumKappaDrop == cfg.kappaDropPenalty == cfg.sourceDivergencePenalty == 0.0
  }

  /** When the evidence supports a merge: concentration does not drop too far, and
      one cluster explains the samples better than two, once the second cluster's
      price and the penalties are counted. */
  ghost predicate Supported(num: Numerics, cfg: Config, left: MemoryNode, right: MemoryNode, samples: real) {
    Acceptable(cfg, GainOf(num, cfg, left, right) + PriceOf(num, cfg, samples), DropOf(num, cfg, left, right),
               num.sourceVariation(left.sourceCounts, right.sourceCounts))
  }

  ghost predicate Acceptable(cfg: Config, gain: real, drop: real, divergence: real) {
    && (cfg.maximumKappaDrop == 0.0 || drop <= cfg.maximumKappaDrop)
    && (Unpenalized(cfg) || gain > cfg.kappaDropPenalty * drop + cfg.sourceDivergencePenalty * divergence)
  }

  lemma SmoothedExactly(num: Numerics, cfg: Config, count: real, resultant: real)
    requires cfg.Valid(num.pi) && count > 0.0
    ensures Smoothed(num, cfg, count, resultant) == Concentration(num, cfg, count, resultant)
  {
  }

  lemma LikelihoodExactly(num: Numerics, cfg: Config, c: Cluster)
    ensures LogLikelihood(num, cfg, c.count, c.kappa, c.resultant) == Likelihood(num, cfg, c)
  {
  }

  lemma MergeFitExactly(num: Numerics, cfg: Config, left: MemoryNode, right: MemoryNode, samples: real)
    requires cfg.Valid(num.pi)
    ensures MergeFit(num, cfg, left, right, samples).Accepted? <==> Supported(num, cfg, left, right, samples)
    ensures Supported(num, cfg, left, right, samples) ==>
      MergeFit(num, cfg, left, right, samples)
        == Accepted(Union(num, cfg, left, right).count, Union(num, cfg, left, right).kappa)
  {
    var l, r, both := ClusterOf(num, cfg, left), ClusterOf(num, cfg, right), Union(num, cfg, left, right);
    SmoothedExactly(num, cfg, l.count, l.resultant);
    SmoothedExactly(num, cfg, r.count, r.resultant);
    SmoothedExactly(num, cfg, both.count, both.resultant);
    LikelihoodExactly(num, cfg, l);
    LikelihoodExactly(num, cfg, r);
    LikelihoodExactly(num, cfg, both);
    var drop, divergence := DropOf(num, cfg, left, right), num.sourceVariation(left.sourceCounts, right.sourceCounts);
    WorthwhileExactly(num, cfg, GainOf(num, cfg, left, right), samples, drop, divergence);
    hide Smoothed, Concentration, LogLikelihood, Likelihood, Plus, Numerics.Div, Worthwhile, Acceptable, PriceOf;
    hide Config.Valid;
  }

  lemma WorthwhileExactly(num: Numerics, cfg: Config, gain: real, samples: real, drop: real, divergence: real)
    requires cfg.Valid(num.pi)
    ensures Worthwhile(cfg, gain, num.ln(Max(Max(samples, cfg.effectiveSampleMinimum), cfg.eps)), drop, divergence)
      <==> Acceptable(cfg, gain + PriceOf(num, cfg, samples), drop, divergence)
  {
  }

  /** A pair with more gain, a smaller drop and less divergence than one that merges, merges too. */
  lemma SupportIsMonotone(num: Numerics, cfg: Config, left: MemoryNode, right: MemoryNode, samples: real,
                          better: MemoryNode, other: MemoryNode, more: real)
    requires cfg.Valid(num.pi) && MergeFit(num, cfg, left, right, samples).Accepted?
    requires GainOf(num, cfg, better, other) + PriceOf(num, cfg, more)
      >= GainOf(num, cfg, left, right) + PriceOf(num, cfg, samples)
    requires DropOf(num, cfg, better, other) <= DropOf(num, cfg, left, right)
    requires num.sourceVariation(better.sourceCounts, other.sourceCounts)
      <= num.sourceVariation(left.sourceCounts, right.sourceCounts)
    ensures MergeFit(num, cfg, better, other, more).Accepted?
  {
    hide MergeFit, GainOf, DropOf, PriceOf;
    MergeFitExactly(num, cfg, left, right, samples);
    MergeFitExactly(num, cfg, better, other, more);
    Outweighs(cfg.kappaDropPenalty, cfg.sourceDivergencePenalty, DropOf(num, cfg, left, right),
              num.sourceVariation(left.sourceCounts, right.sourceCounts), DropOf(num, cfg, better, other),
              num.sourceVariation(better.sourceCounts, other.sourceCounts));
  }

  lemma Outweighs(c: real, d: real, x: real, y: real, lower: real, closer: real)
    requires c >= 0.0 && d >= 0.0 && lower <= x && closer <= y
    ensures c * lower + d * closer <= c * x + d * y
  {
    Times(c, lower, x);
    Times(d, closer, y);
  }

  lemma Times(c: real, x: real, y: real)
    requires c >= 0.0 && x <= y
    ensures c * x <= c * y
  {
  }

  /** The joint record: everything a merge computes, beyond what `Combines` says of it. */
  ghost predicate MergesTo(num: Numerics, cfg: Config, left: MemoryNode, right: MemoryNode, rightId: NodeId,
                           m: MemoryNode)
  {
    var both := Union(num, cfg, left, right);
    var closeness := Max(Dot(left.centroid, right.centroid), 0.0);
    && Combines(left, right, rightId, m)
    && m.effectiveCount == both.count && m.kappa == both.kappa && Trusted(num, cfg, m.kappa, both.count, m.confidence)
    && m.centroid == num.unit(m.sufficientSum, cfg.eps)
    && m.weight - left.weight - right.weight == cfg.mergeBonus * Min(left.weight, right.weight) * closeness
    && m.tau + m.tau == left.tau + right.tau
    && m.lastSeen == Max(left.lastSeen, right.lastSeen) && m.lastDecay == Max(left.lastDecay, right.lastDecay)
    && m.metadata.Keys == left.metadata.Keys + right.metadata.Keys
    && (forall k | k in m.metadata ::
        m.metadata[k] == if k in left.metadata then left.metadata[k] else right.metadata[k])
    && m.id == left.id
    && (left.level == right.level ==> CountedUp(left.level, m.level))
    && (left.level > right.level ==> m.level == left.level) && (left.level < right.level ==> m.level == right.level)
  }

  lemma MergedExactly(num: Numerics, cfg: Config, left: MemoryNode, right: MemoryNode, rightId: NodeId)
    requires num.Valid() && cfg.Valid(num.pi)
    ensures MergesTo(num, cfg, left, right, rightId,
      Merged(num, cfg, left, right, rightId, Dot(left.centroid, right.centroid),
             Plus(left.sufficientSum, right.sufficientSum),
             Union(num, cfg, left, right).count, Union(num, cfg, left, right).kappa))
  {
    var both := Union(num, cfg, left, right);
    MergedCombines(num, cfg, left, right, rightId, Dot(left.centroid, right.centroid), both.count, both.kappa);
    ConfidenceExactly(num, cfg, both.kappa, both.count);
    hide Union, Trusted, Confidence, Combines, Dot, Plus, AppendNew, Combined, Numerics.Valid;
  }
}

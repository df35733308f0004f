/** Which pairs a consolidation pass merges, decided entirely on the store as the
    pass finds it: greedily, in order of identifiers, each node at most once. */
module ConsolidationPass {
  import opened Collections
  import opened Ranking
  import opened MemoryNodes
  import opened NodeLaws
  import opened MemoryStore
  import opened StoreInvariant
  import opened StoreTheorems
  import opened StoreRuns

  /** The nodes listed with their nearest others, and how similar each pair is. */
  datatype Survey = Survey(ids: seq<NodeId>, rights: seq<NodeId>, similarities: seq<real>)
  {
    predicate Even() { |rights| == |similarities| == |ids| }
  }

  function SurveyOf(nodes: Nodes): (v: Survey)
    ensures v.Even()
  {
    var ids := Sorted(nodes.Keys);
    var pairs := NearestPairs(nodes, ids);
    Survey(ids, seq(|ids|, i requires 0 <= i < |ids| => pairs[i].0),
           seq(|ids|, i requires 0 <= i < |ids| => pairs[i].1))
  }

  function Angles(num: Numerics, similarities: seq<real>): seq<real> {
    seq(|similarities|, i requires 0 <= i < |similarities| => num.acos(ClampUnit(similarities[i])))
  }

  /** The widest angle at which a pair may merge. */
  function GateOf(num: Numerics, cfg: Config, policy: Policy, similarities: seq<real>): real {
    if policy.adaptiveMergeAngle
      then Min(cfg.mergeAngle, num.quantile(Angles(num, similarities), 0.9) + policy.mergeAngleMargin)
    else cfg.mergeAngle
  }

  function MaximumOf(cfg: Config, nodes: Nodes): nat {
    if cfg.maxMergesPerPass.Some? then cfg.maxMergesPerPass.value else |nodes|
  }

  function MergeOf(num: Numerics, cfg: Config, s: Store, left: NodeId, right: NodeId, similarity: real, fit: Fit): Step
    requires left in s.nodes && right in s.nodes && fit.Accepted?
  {
    Merge(left, right, Merged(num, cfg, s.nodes[left], s.nodes[right], right, similarity,
                              Plus(s.nodes[left].sufficientSum, s.nodes[right].sufficientSum), fit.count, fit.kappa))
  }

  /** Whether the `i`th pair merges, given the merges before it. */
  ghost predicate Merges(num: Numerics, cfg: Config, policy: Policy, s: Store, v: Survey, gate: real, maximum: nat,
                         i: nat, before: seq<Step>)
    requires v.Even() && i < |v.ids| && OnlyMerges(before)
  {
    var left, right := v.ids[i], v.rights[i];
    && |before| < maximum && left !in Touched(before) && right !in Touched(before)
    && left in s.nodes && right in s.nodes
    && num.acos(ClampUnit(v.similarities[i])) <= gate
    && FitOf(num, cfg, policy, s, left, right).Accepted?
  }

  /** The merges of the first `n` pairs. */
  ghost function Chosen(num: Numerics, cfg: Config, policy: Policy, s: Store, v: Survey, gate: real, maximum: nat,
                        n: nat): (r: seq<Step>)
    requires v.Even() && n <= |v.ids|
    ensures OnlyMerges(r)
  {
    if n == 0 then []
    else
      var before := Chosen(num, cfg, policy, s, v, gate, maximum, n - 1);
      if Merges(num, cfg, policy, s, v, gate, maximum, n - 1, before) then
        before + [MergeOf(num, cfg, s, v.ids[n - 1], v.rights[n - 1], v.similarities[n - 1],
                          FitOf(num, cfg, policy, s, v.ids[n - 1], v.rights[n - 1]))]
      else before
  }

  /** The whole pass. */
  ghost function PassSteps(num: Numerics, cfg: Config, policy: Policy, s: Store): seq<Step> {
    if |s.nodes| < 2 then []
    else
      var v := SurveyOf(s.nodes);
      Chosen(num, cfg, policy, s, v, GateOf(num, cfg, policy, v.similarities), MaximumOf(cfg, s.nodes), |v.ids|)
  }

  lemma NoneChosen(num: Numerics, cfg: Config, policy: Policy, s: Store, v: Survey, gate: real, maximum: nat)
    requires v.Even()
    ensures Chosen(num, cfg, policy, s, v, gate, maximum, 0) == []
  {
  }

  lemma ChosenNext(num: Numerics, cfg: Config, policy: Policy, s: Store, v: Survey, gate: real, maximum: nat, i: nat,
                   before: seq<Step>)
    requires v.Even() && i < |v.ids| && before == Chosen(num, cfg, policy, s, v, gate, maximum, i)
    ensures OnlyMerges(before)
    ensures Merges(num, cfg, policy, s, v, gate, maximum, i, before) ==>
      Chosen(num, cfg, policy, s, v, gate, maximum, i + 1) ==
        before + [MergeOf(num, cfg, s, v.ids[i], v.rights[i], v.similarities[i],
                          FitOf(num, cfg, policy, s, v.ids[i], v.rights[i]))]
    ensures !Merges(num, cfg, policy, s, v, gate, maximum, i, before) ==>
      Chosen(num, cfg, policy, s, v, gate, maximum, i + 1) == before
  {
    hide Merges, MergeOf, FitOf;
  }

  /** A node no merge has touched has the visit count it started with. */
  lemma {:induction false} UntouchedCount(num: Numerics, cfg: Config, s: Store, steps: seq<Step>, t: Store, id: NodeId)
    requires Reaches(num, cfg, s, steps, t) && OnlyMerges(steps) && id !in Touched(steps)
    ensures Get(t.visitCounts, id) == Get(s.visitCounts, id)
    decreases |steps|
  {
    hide MergedGraph, MergedCoactivations, Combines;
    if steps != [] {
      var middle := Apply(num, cfg, s, steps[0]);
      UntouchedCount(num, cfg, middle, steps[1..], t, id);
    }
  }

  /** So the test on an untouched pair gives what it would have given at the start. */
  lemma FitStands(num: Numerics, cfg: Config, policy: Policy, s: Store, run: Run, t: Store, left: NodeId, right: NodeId)
    requires RunsFrom(num, cfg, s, run, t) && OnlyMerges(run.steps) && PairsApart(run.steps)
      && s.nodes.Keys !! s.absorbed.Keys
    requires left !in Touched(run.steps) && right !in Touched(run.steps)
    ensures left in t.nodes <==> left in s.nodes
    ensures right in t.nodes <==> right in s.nodes
    ensures left in s.nodes ==> t.nodes[left] == s.nodes[left]
    ensures right in s.nodes ==> t.nodes[right] == s.nodes[right]
    ensures left in s.nodes && right in s.nodes ==>
      FitOf(num, cfg, policy, t, left, right) == FitOf(num, cfg, policy, s, left, right)
  {
    hide MergeFit, RunsFrom, Reaches, MergedFrom;
    RunReaches(num, cfg, s, run, t);
    MergePassNodes(num, cfg, s, run.steps, t);
    UntouchedCount(num, cfg, s, run.steps, t, left);
    UntouchedCount(num, cfg, s, run.steps, t, right);
  }

  // ----- The pass, without its tests -----

  /** No other node is more similar to `left` than `right` is; of those as similar, none comes before it. */
  ghost predicate IsNearest(nodes: Nodes, left: NodeId, right: NodeId) {
    && left in nodes && right in nodes && right != left
    && forall other | other in nodes && other != left && other != right ::
         || Dot(nodes[left].centroid, nodes[other].centroid) < Dot(nodes[left].centroid, nodes[right].centroid)
         || (Dot(nodes[left].centroid, nodes[other].centroid) == Dot(nodes[left].centroid, nodes[right].centroid)
             && right < other)
  }

  /** Every node once, in order, with its nearest other and how similar they are. */
  ghost predicate Surveys(nodes: Nodes, v: Survey) {
    && v.Even() && Ascending(v.ids) && ToSet(v.ids) == nodes.Keys
    && forall i | 0 <= i < |v.ids| ::
         && IsNearest(nodes, v.ids[i], v.rights[i])
         && v.similarities[i] == Dot(nodes[v.ids[i]].centroid, nodes[v.rights[i]].centroid)
  }

  lemma NearestExactly(nodes: Nodes, left: NodeId)
    requires |nodes| >= 2 && left in nodes
    ensures IsNearest(nodes, left, NearestPair(nodes, left).0)
    ensures NearestPair(nodes, left).1 == Dot(nodes[left].centroid, nodes[NearestPair(nodes, left).0].centroid)
  {
    hide Dot;
    var scores := Similarities(nodes, left);
    NearestIsOther(nodes, left);
    if scores == map[] {
      RankedKeys(scores);
    } else {
      var top := RankedUnfold(scores);
      forall other | other in nodes && other != left && other != top
        ensures Before(scores, top, other)
      {
        assert other in scores;
      }
    }
  }

  lemma SurveyExactly(nodes: Nodes)
    requires |nodes| >= 2
    ensures Surveys(nodes, SurveyOf(nodes))
  {
    hide IsNearest, NearestPair, Dot, Sorted;
    var v := SurveyOf(nodes);
    SortedKeys(nodes.Keys);
    forall i | 0 <= i < |v.ids|
      ensures v.ids[i] in nodes && v.rights[i] in nodes && IsNearest(nodes, v.ids[i], v.rights[i])
        && v.similarities[i] == Dot(nodes[v.ids[i]].centroid, nodes[v.rights[i]].centroid)
    {
      assert v.ids[i] in ToSet(v.ids);
      NearestIsOther(nodes, v.ids[i]);
      NearestExactly(nodes, v.ids[i]);
    }
  }

  /** The merges whose first node comes before `id`. */
  ghost function Earlier(steps: seq<Step>, id: NodeId): (r: seq<Step>)
    requires OnlyMerges(steps)
    ensures OnlyMerges(r) && |r| <= |steps|
  {
    if steps == [] then []
    else
      var front, last := Earlier(steps[..|steps| - 1], id), steps[|steps| - 1];
      if last.left < id then front + [last] else front
  }

  ghost predicate MergedBy(steps: seq<Step>, id: NodeId)
    requires OnlyMerges(steps)
  {
    exists j :: 0 <= j < |steps| && steps[j].left == id
  }

  /** Close enough: within the configured angle and, if it adapts, within the margin of the observed ones. */
  ghost predicate CloseEnough(num: Numerics, cfg: Config, policy: Policy, v: Survey, angle: real) {
    && angle <= cfg.mergeAngle
    && (policy.adaptiveMergeAngle ==>
          angle - policy.mergeAngleMargin <= num.quantile(AnglesOf(num, v.similarities), 0.9))
  }

  ghost function AnglesOf(num: Numerics, similarities: seq<real>): seq<real> {
    seq(|similarities|, i requires 0 <= i < |similarities| => AngleOf(num, similarities[i]))
  }

  /** Whether the `i`th pair has to merge: the pass is not yet full, neither node was
      part of an earlier merge, and the pair is close and supported by the evidence. */
  ghost predicate Untouched(before: seq<Step>, id: NodeId)
    requires OnlyMerges(before)
  {
    forall k | 0 <= k < |before| :: id != before[k].left && id != before[k].right
  }

  ghost predicate Due(num: Numerics, cfg: Config, policy: Policy, s: Store, v: Survey, i: nat, before: seq<Step>)
    requires Surveys(s.nodes, v) && i < |v.ids| && OnlyMerges(before)
  {
    var left, right := v.ids[i], v.rights[i];
    && |before| < (if cfg.maxMergesPerPass.Some? then cfg.maxMergesPerPass.value else |s.nodes|)
    && Untouched(before, left) && Untouched(before, right)
    && CloseEnough(num, cfg, policy, v, AngleOf(num, v.similarities[i]))
    && Supported(num, cfg, s.nodes[left], s.nodes[right], SamplesOf(policy, s, left, right))
  }

  /** How often the two were visited, as the store counts visits with decay or the nodes without. */
  ghost function SamplesOf(policy: Policy, s: Store, left: NodeId, right: NodeId): real
    requires left in s.nodes && right in s.nodes
  {
    if policy.useDecayedEffectiveSamples then Get(s.visitCounts, left) + Get(s.visitCounts, right)
    else s.nodes[left].visits + s.nodes[right].visits
  }

  /** Each merge joins a node and its nearest, and leaves the joint record. */
  ghost predicate StepsJoin(num: Numerics, cfg: Config, s: Store, steps: seq<Step>)
    requires OnlyMerges(steps)
  {
    forall j | 0 <= j < |steps| ::
      && IsNearest(s.nodes, steps[j].left, steps[j].right)
      && MergesTo(num, cfg, s.nodes[steps[j].left], s.nodes[steps[j].right], steps[j].right, steps[j].node)
  }

  /** A pass merges each pair of the survey exactly when it is due, in the survey's order. */
  ghost predicate PassDecided(num: Numerics, cfg: Config, policy: Policy, s: Store, v: Survey, steps: seq<Step>)
    requires Surveys(s.nodes, v) && OnlyMerges(steps)
  {
    && (forall j, k | 0 <= j < k < |steps| :: steps[j].left < steps[k].left)
    && StepsJoin(num, cfg, s, steps)
    && forall i | 0 <= i < |v.ids| ::
         MergedBy(steps, v.ids[i]) <==> Due(num, cfg, policy, s, v, i, Earlier(steps, v.ids[i]))
  }

  lemma AnglesExactly(num: Numerics, similarities: seq<real>)
    ensures Angles(num, similarities) == AnglesOf(num, similarities)
  {
    forall i | 0 <= i < |similarities|
      ensures Angles(num, similarities)[i] == AnglesOf(num, similarities)[i]
    {
      assert AngleOf(num, similarities[i]) == num.acos(ClampUnit(similarities[i]));
    }
  }

  lemma GateExactly(num: Numerics, cfg: Config, policy: Policy, v: Survey, similarity: real)
    ensures num.acos(ClampUnit(similarity)) <= GateOf(num, cfg, policy, v.similarities)
      <==> CloseEnough(num, cfg, policy, v, AngleOf(num, similarity))
  {
    AnglesExactly(num, v.similarities);
    assert AngleOf(num, similarity) == num.acos(ClampUnit(similarity));
    hide AngleOf, ClampUnit, Angles, AnglesOf;
  }

  lemma {:induction false} TouchedExactly(steps: seq<Step>, id: NodeId)
    requires OnlyMerges(steps)
    ensures id !in Touched(steps) <==> Untouched(steps, id)
    decreases |steps|
  {
    if steps != [] {
      TouchedExactly(steps[1..], id);
      if Untouched(steps[1..], id) {
        forall k | 1 <= k < |steps|
          ensures id != steps[k].left && id != steps[k].right
        {
          assert steps[1..][k - 1] == steps[k];
        }
      }
    }
  }

  lemma FitExactly(num: Numerics, cfg: Config, policy: Policy, s: Store, left: NodeId, right: NodeId)
    requires cfg.Valid(num.pi) && left in s.nodes && right in s.nodes
    ensures FitOf(num, cfg, policy, s, left, right).Accepted?
      <==> Supported(num, cfg, s.nodes[left], s.nodes[right], SamplesOf(policy, s, left, right))
  {
    hide MergeFit, Supported, Config.Valid;
    MergeFitExactly(num, cfg, s.nodes[left], s.nodes[right], SamplesOf(policy, s, left, right));
  }

  lemma Surveyed(nodes: Nodes, v: Survey, i: nat)
    requires Surveys(nodes, v) && i < |v.ids|
    ensures v.Even() && v.ids[i] in nodes && v.rights[i] in nodes && v.rights[i] != v.ids[i]
    ensures IsNearest(nodes, v.ids[i], v.rights[i])
    ensures v.similarities[i] == Dot(nodes[v.ids[i]].centroid, nodes[v.rights[i]].centroid)
  {
    hide Dot;
  }

  /** The test the pass makes is the test the evidence asks for. */
  lemma MergesExactly(num: Numerics, cfg: Config, policy: Policy, s: Store, v: Survey, i: nat, before: seq<Step>)
    requires cfg.Valid(num.pi) && Surveys(s.nodes, v) && i < |v.ids| && OnlyMerges(before)
    ensures Merges(num, cfg, policy, s, v, GateOf(num, cfg, policy, v.similarities), MaximumOf(cfg, s.nodes), i, before)
      <==> Due(num, cfg, policy, s, v, i, before)
  {
    hide Surveys, IsNearest, GateOf, CloseEnough, FitOf, Supported, ClampUnit, AngleOf, Untouched, Touched;
    hide Config.Valid, OnlyMerges, Dot, SamplesOf;
    Surveyed(s.nodes, v, i);
    GateExactly(num, cfg, policy, v, v.similarities[i]);
    TouchedExactly(before, v.ids[i]);
    TouchedExactly(before, v.rights[i]);
    FitExactly(num, cfg, policy, s, v.ids[i], v.rights[i]);
  }

  lemma {:induction false} EarlierAll(steps: seq<Step>, id: NodeId)
    requires OnlyMerges(steps) && forall j | 0 <= j < |steps| :: steps[j].left < id
    ensures Earlier(steps, id) == steps
    decreases |steps|
  {
    if steps != [] {
      EarlierAll(steps[..|steps| - 1], id);
    }
  }

  lemma LaterIsNoneEarlier(steps: seq<Step>, step: Step, id: NodeId)
    requires OnlyMerges(steps) && step.Merge? && step.left >= id
    ensures OnlyMerges(steps + [step]) && Earlier(steps + [step], id) == Earlier(steps, id)
    ensures step.left != id ==> (MergedBy(steps + [step], id) <==> MergedBy(steps, id))
  {
    var all := steps + [step];
    assert all[..|all| - 1] == steps;
    if j :| 0 <= j < |steps| && steps[j].left == id {
      assert all[j].left == id;
    }
  }

  /** The step a due pair takes is the merge of the two with their joint record. */
  lemma StepJoins(num: Numerics, cfg: Config, policy: Policy, s: Store, v: Survey, i: nat)
    requires num.Valid() && cfg.Valid(num.pi) && Surveys(s.nodes, v) && i < |v.ids|
    requires v.ids[i] in s.nodes && v.rights[i] in s.nodes
      && FitOf(num, cfg, policy, s, v.ids[i], v.rights[i]).Accepted?
    ensures var step := MergeOf(num, cfg, s, v.ids[i], v.rights[i], v.similarities[i],
                                FitOf(num, cfg, policy, s, v.ids[i], v.rights[i]));
      && step.Merge? && step.left == v.ids[i] && IsNearest(s.nodes, step.left, step.right)
      && MergesTo(num, cfg, s.nodes[step.left], s.nodes[step.right], step.right, step.node)
  {
    hide MergeFit, Merged, MergesTo, IsNearest, Surveys, Union, Supported, Config.Valid, Numerics.Valid, Dot;
    Surveyed(s.nodes, v, i);
    var left, right := v.ids[i], v.rights[i];
    MergeFitExactly(num, cfg, s.nodes[left], s.nodes[right], SamplesOf(policy, s, left, right));
    MergedExactly(num, cfg, s.nodes[left], s.nodes[right], right);
  }

  /** What is known after the first `n` pairs. */
  ghost predicate DecidedUpTo(num: Numerics, cfg: Config, policy: Policy, s: Store, v: Survey, n: nat, steps: seq<Step>)
    requires Surveys(s.nodes, v) && OnlyMerges(steps) && n <= |v.ids|
  {
    && (forall j, k | 0 <= j < k < |steps| :: steps[j].left < steps[k].left)
    && (forall j, i | 0 <= j < |steps| && n <= i < |v.ids| :: steps[j].left < v.ids[i])
    && StepsJoin(num, cfg, s, steps)
    && forall i | 0 <= i < n :: MergedBy(steps, v.ids[i]) <==> Due(num, cfg, policy, s, v, i, Earlier(steps, v.ids[i]))
  }

  lemma OneMoreDecided(num: Numerics, cfg: Config, policy: Policy, s: Store, v: Survey, n: nat, before: seq<Step>,
                       step: Step)
    requires Surveys(s.nodes, v) && OnlyMerges(before) && n < |v.ids|
    requires DecidedUpTo(num, cfg, policy, s, v, n, before) && Due(num, cfg, policy, s, v, n, before)
    requires step.Merge? && step.left == v.ids[n] && IsNearest(s.nodes, step.left, step.right)
      && MergesTo(num, cfg, s.nodes[step.left], s.nodes[step.right], step.right, step.node)
    ensures OnlyMerges(before + [step]) && DecidedUpTo(num, cfg, policy, s, v, n + 1, before + [step])
  {
    hide Surveys, Due, IsNearest, MergesTo, Earlier, MergedBy;
    SurveyOrder(s.nodes, v);
    var steps := before + [step];
    EarlierAll(before, v.ids[n]);
    LaterIsNoneEarlier(before, step, v.ids[n]);
    LastIsMerged(before, step);
    forall i | 0 <= i < n
      ensures MergedBy(steps, v.ids[i]) <==> Due(num, cfg, policy, s, v, i, Earlier(steps, v.ids[i]))
    {
      LaterIsNoneEarlier(before, step, v.ids[i]);
    }
  }

  lemma SurveyOrder(nodes: Nodes, v: Survey)
    requires Surveys(nodes, v)
    ensures v.Even() && forall i, j | 0 <= i < j < |v.ids| :: v.ids[i] < v.ids[j]
  {
    hide IsNearest;
  }

  lemma LastIsMerged(before: seq<Step>, step: Step)
    requires OnlyMerges(before) && step.Merge?
    ensures OnlyMerges(before + [step]) && MergedBy(before + [step], step.left)
  {
    assert (before + [step])[|before|] == step;
  }

  lemma NoMoreDecided(num: Numerics, cfg: Config, policy: Policy, s: Store, v: Survey, n: nat, before: seq<Step>)
    requires Surveys(s.nodes, v) && OnlyMerges(before) && n < |v.ids|
    requires DecidedUpTo(num, cfg, policy, s, v, n, before) && !Due(num, cfg, policy, s, v, n, before)
    ensures DecidedUpTo(num, cfg, policy, s, v, n + 1, before)
  {
    hide Due, IsNearest, StepsJoin, Earlier;
    EarlierAll(before, v.ids[n]);
  }

  lemma NextDecided(num: Numerics, cfg: Config, policy: Policy, s: Store, v: Survey, n: nat, before: seq<Step>)
    requires num.Valid() && cfg.Valid(num.pi) && Surveys(s.nodes, v) && v.Even() && n < |v.ids|
    requires before == Chosen(num, cfg, policy, s, v, GateOf(num, cfg, policy, v.similarities),
                              MaximumOf(cfg, s.nodes), n)
    requires OnlyMerges(before) && DecidedUpTo(num, cfg, policy, s, v, n, before)
    ensures DecidedUpTo(num, cfg, policy, s, v, n + 1,
      Chosen(num, cfg, policy, s, v, GateOf(num, cfg, policy, v.similarities), MaximumOf(cfg, s.nodes), n + 1))
  {
    hide Surveys, Merges, MergeOf, FitOf, Due, IsNearest, MergesTo, GateOf, MaximumOf, Config.Valid, Numerics.Valid;
    hide DecidedUpTo, OnlyMerges;
    var gate, maximum := GateOf(num, cfg, policy, v.similarities), MaximumOf(cfg, s.nodes);
    ChosenNext(num, cfg, policy, s, v, gate, maximum, n, before);
    MergesExactly(num, cfg, policy, s, v, n, before);
    if Merges(num, cfg, policy, s, v, gate, maximum, n, before) {
      MergesAccepted(num, cfg, policy, s, v, gate, maximum, n, before);
      StepJoins(num, cfg, policy, s, v, n);
      OneMoreDecided(num, cfg, policy, s, v, n, before,
        MergeOf(num, cfg, s, v.ids[n], v.rights[n], v.similarities[n],
                FitOf(num, cfg, policy, s, v.ids[n], v.rights[n])));
    } else {
      NoMoreDecided(num, cfg, policy, s, v, n, before);
    }
  }

  lemma NothingDecided(num: Numerics, cfg: Config, policy: Policy, s: Store, v: Survey)
    requires Surveys(s.nodes, v)
    ensures var none: seq<Step> := []; OnlyMerges(none) && DecidedUpTo(num, cfg, policy, s, v, 0, none)
  {
  }

  lemma {:induction false} ChosenDecided(num: Numerics, cfg: Config, policy: Policy, s: Store, v: Survey, n: nat)
    requires num.Valid() && cfg.Valid(num.pi) && Surveys(s.nodes, v) && v.Even() && n <= |v.ids|
    ensures DecidedUpTo(num, cfg, policy, s, v, n,
      Chosen(num, cfg, policy, s, v, GateOf(num, cfg, policy, v.similarities), MaximumOf(cfg, s.nodes), n))
  {
    hide Surveys, DecidedUpTo, Merges, MergeOf, FitOf, GateOf, MaximumOf, Config.Valid, Numerics.Valid, OnlyMerges;
    if n == 0 {
      NothingDecided(num, cfg, policy, s, v);
      NoneChosen(num, cfg, policy, s, v, GateOf(num, cfg, policy, v.similarities), MaximumOf(cfg, s.nodes));
    } else {
      ChosenDecided(num, cfg, policy, s, v, n - 1);
      NextDecided(num, cfg, policy, s, v, n - 1,
        Chosen(num, cfg, policy, s, v, GateOf(num, cfg, policy, v.similarities), MaximumOf(cfg, s.nodes), n - 1));
    }
  }

  lemma MergesAccepted(num: Numerics, cfg: Config, policy: Policy, s: Store, v: Survey, gate: real, maximum: nat,
                       i: nat, before: seq<Step>)
    requires v.Even() && i < |v.ids| && OnlyMerges(before)
    requires Merges(num, cfg, policy, s, v, gate, maximum, i, before)
    ensures v.ids[i] in s.nodes && v.rights[i] in s.nodes
      && FitOf(num, cfg, policy, s, v.ids[i], v.rights[i]).Accepted?
  {
  }

  /** A pass surveys the nodes it finds and merges exactly the pairs that are due. */
  ghost predicate PassExactly(num: Numerics, cfg: Config, policy: Policy, s: Store, steps: seq<Step>)
    requires OnlyMerges(steps)
  {
    if |s.nodes| < 2 then steps == []
    else exists v :: Surveys(s.nodes, v) && PassDecided(num, cfg, policy, s, v, steps)
  }

  lemma PassIsExact(num: Numerics, cfg: Config, policy: Policy, s: Store)
    requires num.Valid() && cfg.Valid(num.pi)
    ensures OnlyMerges(PassSteps(num, cfg, policy, s))
    ensures PassExactly(num, cfg, policy, s, PassSteps(num, cfg, policy, s))
  {
    hide Surveys, SurveyOf, StepsJoin, Due, Earlier, MergedBy, Chosen, GateOf, MaximumOf;
    if |s.nodes| >= 2 {
      var v := SurveyOf(s.nodes);
      SurveyExactly(s.nodes);
      SurveyOrder(s.nodes, v);
      ChosenDecided(num, cfg, policy, s, v, |v.ids|);
      assert PassDecided(num, cfg, policy, s, v, PassSteps(num, cfg, policy, s));
    }
  }
}

/** What merging conserves, where evidence goes, and why the absorbed hierarchy
    has no cycles: statements over single steps, passes and whole runs. */
module StoreTheorems {
  import opened Collections
  import opened Ranking
  import opened MemoryNodes
  import opened MemoryStore
  import opened StoreInvariant

  // ----- Evidence -----

  ghost function Evidence(nodes: Nodes): set<EventId> {
    set id, e | id in nodes && e in nodes[id].eventIds :: e
  }

  /** The event a step records, if any. */
  function Observed(step: Step): set<EventId> {
    match step
    case Spawn(event, _, _, _, _) => {event}
    case Reinforce(_, event, _, _, _, _) => {event}
    case _ => {}
  }

  function AllObserved(steps: seq<Step>): set<EventId> {
    if steps == [] then {} else Observed(steps[0]) + AllObserved(steps[1..])
  }

  lemma EvidenceWithout(nodes: Nodes, id: NodeId)
    requires id in nodes
    ensures Evidence(nodes) == Evidence(nodes - {id}) + ToSet(nodes[id].eventIds)
  {
    var rest := nodes - {id};
    forall e | e in Evidence(nodes)
      ensures e in Evidence(rest) || e in ToSet(nodes[id].eventIds)
    {
      var x :| x in nodes && e in nodes[x].eventIds;
      assert x != id ==> x in rest && e in rest[x].eventIds;
    }
    forall e | e in Evidence(rest)
      ensures e in Evidence(nodes)
    {
      var x :| x in rest && e in rest[x].eventIds;
      assert x in nodes && e in nodes[x].eventIds;
    }
  }

  lemma EvidenceOfUpdate(nodes: Nodes, id: NodeId, node: MemoryNode)
    requires id in nodes ==> ToSet(nodes[id].eventIds) <= ToSet(node.eventIds)
    ensures Evidence(nodes[id := node]) == Evidence(nodes) + ToSet(node.eventIds)
  {
    EvidenceWithout(nodes[id := node], id);
    assert nodes[id := node] - {id} == nodes - {id};
    if id in nodes {
      EvidenceWithout(nodes, id);
    } else {
      assert nodes - {id} == nodes;
    }
  }

  lemma EvidenceOfRewrite(nodes: Nodes, next: Nodes)
    requires nodes.Keys == next.Keys
    requires forall id | id in nodes :: next[id].eventIds == nodes[id].eventIds
    ensures Evidence(next) == Evidence(nodes)
  {
  }

  lemma EvidenceOfMerge(nodes: Nodes, left: NodeId, right: NodeId, m: MemoryNode)
    requires left in nodes && right in nodes && left != right
    requires ToSet(m.eventIds) == ToSet(nodes[left].eventIds) + ToSet(nodes[right].eventIds)
    ensures Evidence(nodes[left := m] - {right}) == Evidence(nodes)
  {
    var joined := nodes[left := m];
    EvidenceOfUpdate(nodes, left, m);
    EvidenceWithout(nodes, left);
    EvidenceWithout(nodes, right);
    EvidenceWithout(joined, right);
    EvidenceWithout(joined - {right}, left);
  }

  lemma RetouchKeepsEvidence(num: Numerics, cfg: Config, s: Store, step: Step)
    requires Enabled(cfg, s, step)
    requires step.DecayNodes? || step.Annotate? || step.Relieve? || step.Stretch?
    ensures Evidence(Apply(num, cfg, s, step).nodes) == Evidence(s.nodes)
  {
    var next := Apply(num, cfg, s, step).nodes;
    forall id | id in s.nodes
      ensures next[id].eventIds == s.nodes[id].eventIds
    {
    }
    EvidenceOfRewrite(s.nodes, next);
  }

  /** Only pruning can lose evidence; every other step keeps it all and adds
      exactly the event it records. */
  lemma StepKeepsEvidence(num: Numerics, cfg: Config, s: Store, step: Step)
    requires num.Valid() && cfg.eps > 0.0 && Inv(num, cfg, s) && Enabled(cfg, s, step) && !step.Prune?
    ensures Evidence(Apply(num, cfg, s, step).nodes) == Evidence(s.nodes) + Observed(step)
  {
    if LeavesNodes(step) {
      LeavingStepKeeps(num, cfg, s, step);
    } else if step.Spawn? {
      SpawnAddsEvidence(num, cfg, s, step.event, step.input, step.now, step.source, step.metadata);
    } else if step.Reinforce? {
      ReinforceAddsEvidence(num, cfg, s, step);
    } else if step.Merge? {
      MergeMovesEvidence(num, cfg, s, step);
    } else {
      RetouchKeepsEvidence(num, cfg, s, step);
    }
  }

  lemma ReinforceAddsEvidence(num: Numerics, cfg: Config, s: Store, step: Step)
    requires num.Valid() && NodesOk(cfg.dimension, s.nodes) && step.Reinforce? && Enabled(cfg, s, step)
    ensures Evidence(Apply(num, cfg, s, step).nodes) == Evidence(s.nodes) + {step.event}
  {
    assert NodeOk(s.nodes[step.id], cfg.dimension);
    ReinforcedIsOk(num, cfg, s.nodes[step.id], step.event, step.input, step.similarity, step.now, step.source);
    EvidenceWithout(s.nodes, step.id);
    EvidenceOfUpdate(s.nodes, step.id, Apply(num, cfg, s, step).nodes[step.id]);
  }

  lemma MergeMovesEvidence(num: Numerics, cfg: Config, s: Store, step: Step)
    requires NodesOk(cfg.dimension, s.nodes) && step.Merge? && Enabled(cfg, s, step)
    ensures Evidence(Apply(num, cfg, s, step).nodes) == Evidence(s.nodes)
  {
    assert NodeOk(s.nodes[step.left], cfg.dimension) && NodeOk(s.nodes[step.right], cfg.dimension);
    CombinedIsOk(s.nodes[step.left], s.nodes[step.right], step.right, step.node, cfg.dimension);
    EvidenceOfMerge(s.nodes, step.left, step.right, step.node);
  }

  lemma SpawnAddsEvidence(num: Numerics, cfg: Config, s: Store, event: EventId, input: Vector, now: real,
                          source: Option<string>, metadata: map<string, string>)
    requires num.Valid() && Inv(num, cfg, s)
    ensures Evidence(Spawned(num, cfg, s, event, input, now, source, metadata).nodes) == Evidence(s.nodes) + {event}
  {
    var id := num.nodeHash(event, s.spawnCounter);
    var node := Fresh(num, cfg, id, event, input, now, source, metadata);
    SpawnIsFresh(num, s, event);
    EvidenceOfUpdate(s.nodes, id, node);
    assert ToSet(node.eventIds) == {event};
  }

  /** Over any run without pruning, the active nodes hold exactly the evidence
      they started with and everything observed since. */
  lemma {:induction false} RunKeepsEvidence(num: Numerics, cfg: Config, s: Store, steps: seq<Step>, t: Store)
    requires num.Valid() && cfg.eps > 0.0 && Inv(num, cfg, s) && Reaches(num, cfg, s, steps, t)
    requires forall i | 0 <= i < |steps| :: !steps[i].Prune?
    ensures Evidence(t.nodes) == Evidence(s.nodes) + AllObserved(steps)
    decreases |steps|
  {
    hide Inv, Apply, Enabled, Evidence;
    if steps != [] {
      StepKeepsInvariant(num, cfg, s, steps[0]);
      StepKeepsEvidence(num, cfg, s, steps[0]);
      RunKeepsEvidence(num, cfg, Apply(num, cfg, s, steps[0]), steps[1..], t);
    }
  }

  // ----- The absorbed hierarchy -----

  /** The record stored for an identifier, active or absorbed (`Dcmdb::node`). */
  ghost function Lookup(s: Store, id: NodeId): MemoryNode
    requires id in s.nodes || id in s.absorbed
  {
    if id in s.nodes then s.nodes[id] else s.absorbed[id]
  }

  ghost predicate IsKnown(s: Store, id: NodeId) { id in s.nodes || id in s.absorbed }

  lemma KnownFamily(s: Store, id: NodeId)
    requires HierarchyOk(s.nodes, s.absorbed) && IsKnown(s, id)
    ensures FamilyOk(s.absorbed, Lookup(s, id), id)
  {
    assert id in s.nodes ==> FamilyOk(s.absorbed, s.nodes[id], id);
    assert id in s.absorbed ==> FamilyOk(s.absorbed, s.absorbed[id], id);
  }

  ghost predicate Descent(s: Store, path: seq<NodeId>) {
    && (forall i | 0 <= i < |path| :: IsKnown(s, path[i]))
    && (forall i | 0 <= i < |path| - 1 :: path[i + 1] in Lookup(s, path[i]).children)
  }

  /** Following children never returns: every later node on a descent is listed
      among the first node's children, and the first node is not. */
  lemma {:induction false} DescentNeverReturns(s: Store, path: seq<NodeId>)
    requires HierarchyOk(s.nodes, s.absorbed) && s.nodes.Keys !! s.absorbed.Keys
    requires |path| >= 2 && Descent(s, path)
    ensures path[|path| - 1] in Lookup(s, path[0]).children
    ensures path[|path| - 1] != path[0]
    ensures path[|path| - 1] in s.absorbed
    decreases |path|
  {
    KnownFamily(s, path[0]);
    if |path| > 2 {
      DescentNeverReturns(s, path[1..]);
      var child := path[1];
      assert child in Lookup(s, path[0]).children && child in s.absorbed;
      assert path[|path| - 1] in ToSet(s.absorbed[child].children);
      assert path[|path| - 1] in ToSet(Lookup(s, path[0]).children);
    }
  }

  // ----- Conservation -----

  /** A quantity summed over the active nodes. */
  ghost function NodeTotal(nodes: Nodes, f: MemoryNode -> real): real {
    Sum(nodes.Keys, id => if id in nodes then f(nodes[id]) else 0.0)
  }

  lemma MergeConserves(nodes: Nodes, left: NodeId, right: NodeId, m: MemoryNode, f: MemoryNode -> real)
    requires left in nodes && right in nodes && left != right
    requires f(m) == f(nodes[left]) + f(nodes[right])
    ensures NodeTotal(nodes[left := m] - {right}, f) == NodeTotal(nodes, f)
  {
    var next := nodes[left := m] - {right};
    var before := id => if id in nodes then f(nodes[id]) else 0.0;
    var after := id => if id in next then f(next[id]) else 0.0;
    assert next.Keys == nodes.Keys - {right};
    SumTransfer(nodes.Keys, left, right, before, after);
    assert NodeTotal(next, f) == Sum(next.Keys, after);
    assert NodeTotal(nodes, f) == Sum(nodes.Keys, before);
  }

  ghost function Visits(): MemoryNode -> real { (n: MemoryNode) => n.visits }

  ghost function FromSource(source: string): MemoryNode -> real { (n: MemoryNode) => Get(n.sourceCounts, source) }

  ghost function Coordinate(k: nat): MemoryNode -> real {
    (n: MemoryNode) => if k < |n.sufficientSum| then n.sufficientSum[k] else 0.0
  }

  ghost function Mass(active: set<NodeId>, co: Pairs): real {
    Sum(active, a => RowMass(active, co, a))
  }

  ghost function RowMass(active: set<NodeId>, co: Pairs, a: NodeId): real {
    Sum(active, b => Get(co, (a, b)))
  }

  /** The coactivation recorded between two nodes, both directions. */
  function Between(co: Pairs, a: NodeId, b: NodeId): real {
    Get(co, (a, b)) + Get(co, (b, a))
  }

  lemma Symmetric(active: set<NodeId>, co: Pairs, a: NodeId, b: NodeId)
    requires CoactivationsOk(active, co)
    ensures Get(co, (a, b)) == Get(co, (b, a)) >= 0.0
    ensures a == b ==> Get(co, (a, b)) == 0.0
  {
    assert (a, b) in co ==> PairOk(active, co, a, b);
    assert (b, a) in co ==> PairOk(active, co, b, a);
  }

  lemma MergedEntry(s: Store, left: NodeId, right: NodeId, a: NodeId, b: NodeId)
    requires CoactivationsOk(s.nodes.Keys, s.coactivations) && left in s.nodes && right in s.nodes && left != right
    requires a in s.nodes && b in s.nodes && a != right && b != right
    ensures Get(MergedCoactivations(s.nodes.Keys, s.coactivations, left, right), (a, b)) ==
      (if a == b then 0.0
       else if a == left then Get(s.coactivations, (left, b)) + Get(s.coactivations, (right, b))
       else if b == left then Get(s.coactivations, (a, left)) + Get(s.coactivations, (a, right))
       else Get(s.coactivations, (a, b)))
  {
    Symmetric(s.nodes.Keys, s.coactivations, a, b);
    Symmetric(s.nodes.Keys, s.coactivations, a, right);
    Symmetric(s.nodes.Keys, s.coactivations, right, b);
    Symmetric(s.nodes.Keys, s.coactivations, left, a);
    Symmetric(s.nodes.Keys, s.coactivations, left, b);
  }

  /** Another node's row keeps its mass: what it shared with `right` is now shared with `left`. */
  lemma OtherRowMass(s: Store, left: NodeId, right: NodeId, a: NodeId)
    requires CoactivationsOk(s.nodes.Keys, s.coactivations) && left in s.nodes && right in s.nodes && left != right
    requires a in s.nodes && a != left && a != right
    ensures RowMass(s.nodes.Keys - {right}, MergedCoactivations(s.nodes.Keys, s.coactivations, left, right), a)
         == RowMass(s.nodes.Keys, s.coactivations, a)
  {
    var co, next := s.coactivations, MergedCoactivations(s.nodes.Keys, s.coactivations, left, right);
    var before := b => Get(co, (a, b));
    var after := b => Get(next, (a, b));
    Symmetric(s.nodes.Keys, co, a, a);
    forall b | b in s.nodes.Keys && b != right
      ensures after(b) == if b == left then before(left) + before(right) else before(b)
    {
      MergedEntry(s, left, right, a, b);
    }
    SumTransfer(s.nodes.Keys, left, right, before, after);
    assert RowMass(s.nodes.Keys, co, a) == Sum(s.nodes.Keys, before);
    assert RowMass(s.nodes.Keys - {right}, next, a) == Sum(s.nodes.Keys - {right}, after);
  }

  lemma RowMassApart(active: set<NodeId>, co: Pairs, a: NodeId, b: NodeId)
    requires CoactivationsOk(active, co) && a in active && b in active && a != b
    ensures RowMass(active, co, a) == Get(co, (a, b)) + Sum(active - {a, b}, x => Get(co, (a, x)))
  {
    var row := x => Get(co, (a, x));
    Symmetric(active, co, a, a);
    SumPick(active, row, b);
    SumPick(active - {b}, row, a);
    assert active - {b} - {a} == active - {a, b};
    assert RowMass(active, co, a) == Sum(active, row);
    SumSame(active - {a, b}, row, x => Get(co, (a, x)));
  }

  lemma SurvivorRowMass(s: Store, left: NodeId, right: NodeId)
    requires CoactivationsOk(s.nodes.Keys, s.coactivations) && left in s.nodes && right in s.nodes && left != right
    ensures RowMass(s.nodes.Keys - {right}, MergedCoactivations(s.nodes.Keys, s.coactivations, left, right), left)
         == RowMass(s.nodes.Keys, s.coactivations, left) + RowMass(s.nodes.Keys, s.coactivations, right)
            - Between(s.coactivations, left, right)
  {
    var active, co, next := s.nodes.Keys, s.coactivations,
      MergedCoactivations(s.nodes.Keys, s.coactivations, left, right);
    var rest := active - {left, right};
    var mine := x => Get(co, (left, x));
    var theirs := x => Get(co, (right, x));
    var after := x => Get(next, (left, x));
    RowMassApart(active, co, left, right);
    RowMassApart(active, co, right, left);
    assert active - {right, left} == rest;
    SumSame(rest, mine, x => Get(co, (left, x)));
    SumSame(rest, theirs, x => Get(co, (right, x)));
    forall x | x in rest
      ensures after(x) == mine(x) + theirs(x)
    {
      MergedEntry(s, left, right, left, x);
    }
    SumAdded(rest, mine, theirs, after);
    MergedEntry(s, left, right, left, left);
    SumPick(active - {right}, after, left);
    assert active - {right} - {left} == rest;
    assert RowMass(active - {right}, next, left) == Sum(active - {right}, after);
  }

  /** Merging drops exactly the coactivation the pair had with each other. */
  lemma MergeMass(s: Store, left: NodeId, right: NodeId)
    requires CoactivationsOk(s.nodes.Keys, s.coactivations) && left in s.nodes && right in s.nodes && left != right
    ensures Mass(s.nodes.Keys - {right}, MergedCoactivations(s.nodes.Keys, s.coactivations, left, right))
         == Mass(s.nodes.Keys, s.coactivations) - Between(s.coactivations, left, right)
  {
    hide CoactivationsOk, MergedCoactivations, Sum, RowMass, Between;
    var active, co, next := s.nodes.Keys, s.coactivations,
      MergedCoactivations(s.nodes.Keys, s.coactivations, left, right);
    var before := a => RowMass(active, co, a);
    var after := a => RowMass(active - {right}, next, a);
    var rest := active - {left, right};
    SurvivorRowMass(s, left, right);
    forall a | a in rest
      ensures before(a) == after(a)
    {
      OtherRowMass(s, left, right, a);
    }
    SumSame(rest, before, after);
    SumPick(active, before, right);
    SumPick(active - {right}, before, left);
    SumPick(active - {right}, after, left);
    assert active - {right} - {left} == rest;
    assert Mass(active, co) == Sum(active, before);
    assert Mass(active - {right}, next) == Sum(active - {right}, after);
  }

  lemma MergeTotalVisits(counts: Row, left: NodeId, right: NodeId)
    requires left in counts && right in counts && left != right
    ensures Total(counts[left := Get(counts, left) + Get(counts, right)] - {right}) == Total(counts)
  {
    var next := counts[left := Get(counts, left) + Get(counts, right)] - {right};
    assert next.Keys == counts.Keys - {right};
    SumTransfer(counts.Keys, left, right, id => Get(counts, id), id => Get(next, id));
    assert Total(next) == Sum(next.Keys, id => Get(next, id));
  }

  // ----- A pass of merges -----

  predicate OnlyMerges(steps: seq<Step>) {
    forall i | 0 <= i < |steps| :: steps[i].Merge?
  }

  function Pair(step: Step): set<NodeId>
    requires step.Merge?
  {
    {step.left, step.right}
  }

  /** No node takes part in two of the merges. */
  ghost predicate PairsApart(steps: seq<Step>)
    requires OnlyMerges(steps)
  {
    forall i, j | 0 <= i < j < |steps| :: Pair(steps[i]) !! Pair(steps[j])
  }

  function Touched(steps: seq<Step>): set<NodeId>
    requires OnlyMerges(steps)
  {
    if steps == [] then {} else Pair(steps[0]) + Touched(steps[1..])
  }

  lemma {:induction false} TouchedExactly(steps: seq<Step>, id: NodeId)
    requires OnlyMerges(steps)
    ensures id in Touched(steps) <==> exists i | 0 <= i < |steps| :: id in Pair(steps[i])
    decreases |steps|
  {
    if steps != [] {
      TouchedExactly(steps[1..], id);
      if i :| 0 <= i < |steps[1..]| && id in Pair(steps[1..][i]) {
        assert id in Pair(steps[i + 1]);
      }
      if i :| 0 <= i < |steps| && id in Pair(steps[i]) {
        assert i > 0 ==> steps[1..][i - 1] == steps[i];
      }
    }
  }

  /** Each node's nearest neighbour. */
  function Partners(nodes: Nodes): map<NodeId, NodeId> {
    map left | left in nodes :: NearestPair(nodes, left).0
  }

  ghost predicate PartnersOnly(partner: map<NodeId, NodeId>, steps: seq<Step>)
    requires OnlyMerges(steps)
  {
    forall i | 0 <= i < |steps| :: steps[i].left in partner && steps[i].right == partner[steps[i].left]
  }

  /** With two nodes or more, the nearest neighbour is another node. */
  lemma NearestIsOther(nodes: Nodes, left: NodeId)
    requires |nodes| >= 2 && left in nodes
    ensures NearestPair(nodes, left).0 in nodes && NearestPair(nodes, left).0 != left
  {
    var scores := Similarities(nodes, left);
    RankedKeys(scores);
    assert scores.Keys == nodes.Keys - {left};
    assert |scores.Keys| == |nodes.Keys| - 1;
    assert Ranked(scores)[0] in ToSet(Ranked(scores));
  }

  lemma NearestListed(nodes: Nodes, ids: seq<NodeId>, i: nat)
    requires |nodes| >= 2 && i < |ids| && ToSet(ids) == nodes.Keys
    ensures ids[i] in Partners(nodes)
    ensures NearestPairs(nodes, ids)[i].0 == Partners(nodes)[ids[i]] != ids[i]
  {
    assert ids[i] in ToSet(ids);
    NearestIsOther(nodes, ids[i]);
  }

  lemma {:induction false} TouchedConcat(steps: seq<Step>, step: Step)
    requires OnlyMerges(steps) && step.Merge?
    ensures OnlyMerges(steps + [step]) && Touched(steps + [step]) == Touched(steps) + Pair(step)
    decreases |steps|
  {
    var all := steps + [step];
    assert OnlyMerges(all);
    if steps != [] {
      assert all[1..] == steps[1..] + [step];
      TouchedConcat(steps[1..], step);
    } else {
      assert all[1..] == [];
    }
  }

  lemma AppendMerge(steps: seq<Step>, step: Step, partner: map<NodeId, NodeId>)
    requires OnlyMerges(steps) && PairsApart(steps) && step.Merge? && Pair(step) !! Touched(steps)
    requires PartnersOnly(partner, steps) && step.left in partner && step.right == partner[step.left]
    ensures OnlyMerges(steps + [step]) && PairsApart(steps + [step]) && PartnersOnly(partner, steps + [step])
    ensures Touched(steps + [step]) == Touched(steps) + Pair(step)
  {
    TouchedConcat(steps, step);
    forall i | 0 <= i < |steps|
      ensures Pair(steps[i]) !! Pair(step)
    {
      TouchedExactly(steps, step.left);
      TouchedExactly(steps, step.right);
    }
  }

  ghost predicate MergedFrom(s: Store, step: Step, t: Store)
    requires step.Merge?
  {
    && step.left in s.nodes && step.right in s.nodes && step.left != step.right
    && Combines(s.nodes[step.left], s.nodes[step.right], step.right, step.node)
    && step.left in t.nodes && t.nodes[step.left] == step.node
    && step.right !in t.nodes && step.right in t.absorbed && t.absorbed[step.right] == s.nodes[step.right]
  }

  lemma MergeStepApplied(num: Numerics, cfg: Config, s: Store, step: Step)
    requires step.Merge? && Enabled(cfg, s, step)
    ensures Apply(num, cfg, s, step) == MergedStore(cfg, s, step.left, step.right, step.node)
  {
  }

  /** Peels the first merge off a run of merges. */
  lemma FirstMerge(num: Numerics, cfg: Config, s: Store, steps: seq<Step>, t: Store) returns (middle: Store)
    requires Reaches(num, cfg, s, steps, t) && OnlyMerges(steps) && steps != []
    ensures Enabled(cfg, s, steps[0]) && OnlyMerges(steps[1..])
    ensures middle == MergedStore(cfg, s, steps[0].left, steps[0].right, steps[0].node)
    ensures Reaches(num, cfg, middle, steps[1..], t)
    ensures middle.nodes.Keys == s.nodes.Keys - {steps[0].right}
    ensures Inv(num, cfg, s) ==> Inv(num, cfg, middle)
  {
    MergeStepApplied(num, cfg, s, steps[0]);
    if Inv(num, cfg, s) { MergeStepKeeps(num, cfg, s, steps[0]); }
    middle := Apply(num, cfg, s, steps[0]);
  }

  lemma MergeStepSizes(nodes: Nodes, absorbed: Nodes,
                       left: NodeId, right: NodeId, node: MemoryNode)
    requires left in nodes && right in nodes && left != right && right !in absorbed
    ensures |nodes[left := node] - {right}| == |nodes| - 1
    ensures |absorbed[right := nodes[right]]| == |absorbed| + 1
  {
    var next, archive := nodes[left := node] - {right}, absorbed[right := nodes[right]];
    assert next.Keys == nodes.Keys - {right} && archive.Keys == absorbed.Keys + {right};
    assert |next| == |next.Keys| && |nodes| == |nodes.Keys|;
    assert |archive| == |archive.Keys| && |absorbed| == |absorbed.Keys|;
  }

  /** Each merge of a run moves one node from the active to the absorbed. */
  lemma {:induction false} MergePassSizes(num: Numerics, cfg: Config, s: Store, steps: seq<Step>, t: Store)
    requires Reaches(num, cfg, s, steps, t) && OnlyMerges(steps)
    requires s.nodes.Keys !! s.absorbed.Keys
    ensures |t.nodes| == |s.nodes| - |steps| && |t.absorbed| == |s.absorbed| + |steps|
    decreases |steps|
  {
    if steps != [] {
      var middle := FirstMerge(num, cfg, s, steps, t);
      MergeStepSizes(s.nodes, s.absorbed, steps[0].left, steps[0].right, steps[0].node);
      MergePassSizes(num, cfg, middle, steps[1..], t);
    }
  }

  /** Nodes outside `touched` are as they were, archived nodes stay archived, no node appears. */
  ghost predicate Undisturbed(s: Store, touched: set<NodeId>, t: Store) {
    && (forall id | id in s.nodes && id !in touched :: id in t.nodes && t.nodes[id] == s.nodes[id])
    && (forall id | id in t.nodes :: id in s.nodes)
    && (forall id | id in s.absorbed :: id in t.absorbed && t.absorbed[id] == s.absorbed[id])
    && t.nodes.Keys !! t.absorbed.Keys
  }

  ghost predicate PassOutcome(s: Store, steps: seq<Step>, t: Store)
    requires OnlyMerges(steps)
  {
    && (forall i {:trigger steps[i]} | 0 <= i < |steps| :: MergedFrom(s, steps[i], t))
    && Undisturbed(s, Touched(steps), t)
  }

  lemma MergeStepNodes(cfg: Config, s: Store, step: Step, t: Store)
    requires step.Merge? && Enabled(cfg, s, step) && s.nodes.Keys !! s.absorbed.Keys
    requires t == MergedStore(cfg, s, step.left, step.right, step.node)
    ensures MergedFrom(s, step, t) && Undisturbed(s, Pair(step), t)
  {
  }

  /** A pass of merges on disjoint pairs, in closed form: each pair combines the
      two nodes as they were when the pass began, and nothing else moves. */
  lemma {:induction false} MergePassNodes(num: Numerics, cfg: Config, s: Store, steps: seq<Step>, t: Store)
    requires Reaches(num, cfg, s, steps, t) && OnlyMerges(steps) && PairsApart(steps)
    requires s.nodes.Keys !! s.absorbed.Keys
    ensures PassOutcome(s, steps, t)
    decreases |steps|
  {
    if steps != [] {
      var middle := FirstMerge(num, cfg, s, steps, t);
      MergeStepNodes(cfg, s, steps[0], middle);
      RestApart(steps);
      MergePassNodes(num, cfg, middle, steps[1..], t);
      FirstApart(steps);
      PassExtends(s, steps[0], middle, steps, t);
    }
  }

  lemma PassExtends(s: Store, first: Step, middle: Store, steps: seq<Step>, t: Store)
    requires OnlyMerges(steps) && PairsApart(steps) && steps != [] && first == steps[0] && OnlyMerges(steps[1..])
    requires MergedFrom(s, first, middle) && Undisturbed(s, Pair(first), middle)
    requires Pair(first) !! Touched(steps[1..]) && PassOutcome(middle, steps[1..], t)
    ensures PassOutcome(s, steps, t)
  {
    assert first.left in Pair(first) && first.right in Pair(first);
    forall i | 0 < i < |steps|
      ensures MergedFrom(s, steps[i], t)
    {
      assert steps[1..][i - 1] == steps[i];
      assert Pair(steps[0]) !! Pair(steps[i]);
      LaterMergeStands(s, first, middle, steps[i], t);
    }
    assert MergedFrom(s, first, t);
  }

  lemma LaterMergeStands(s: Store, first: Step, middle: Store, later: Step, t: Store)
    requires first.Merge? && later.Merge? && Pair(first) !! Pair(later)
    requires MergedFrom(middle, later, t) && Undisturbed(s, Pair(first), middle)
    ensures MergedFrom(s, later, t)
  {
    assert later.left in Pair(later) && later.right in Pair(later);
  }

  lemma RestApart(steps: seq<Step>)
    requires steps != [] && OnlyMerges(steps) && PairsApart(steps)
    ensures OnlyMerges(steps[1..]) && PairsApart(steps[1..])
  {
    assert forall i | 0 <= i < |steps[1..]| :: steps[1..][i] == steps[i + 1];
  }

  lemma FirstApart(steps: seq<Step>)
    requires steps != [] && OnlyMerges(steps) && PairsApart(steps)
    ensures Pair(steps[0]) !! Touched(steps[1..])
  {
    forall id | id in Pair(steps[0])
      ensures id !in Touched(steps[1..])
    {
      TouchedExactly(steps[1..], id);
      forall i | 0 <= i < |steps[1..]|
        ensures id !in Pair(steps[1..][i])
      {
        assert Pair(steps[0]) !! Pair(steps[i + 1]);
      }
    }
  }

  /** The coactivation each merged pair had with itself, as the pass found it. */
  function PairsMass(co: Pairs, steps: seq<Step>): real
    requires OnlyMerges(steps)
  {
    if steps == [] then 0.0 else Between(co, steps[0].left, steps[0].right) + PairsMass(co, steps[1..])
  }

  lemma {:induction false} PairsMassUnmoved(s: Store, left: NodeId, right: NodeId, steps: seq<Step>)
    requires OnlyMerges(steps) && {left, right} !! Touched(steps)
    ensures PairsMass(MergedCoactivations(s.nodes.Keys, s.coactivations, left, right), steps)
      == PairsMass(s.coactivations, steps)
    decreases |steps|
  {
    if steps != [] {
      assert steps[0].left in Pair(steps[0]) && steps[0].right in Pair(steps[0]);
      PairsMassUnmoved(s, left, right, steps[1..]);
    }
  }

  /** A quantity every merge adds up. */
  ghost predicate Additive(f: MemoryNode -> real) {
    forall l, r, id, m {:trigger Combines(l, r, id, m)} |
      Combines(l, r, id, m) && |l.sufficientSum| == |r.sufficientSum| :: f(m) == f(l) + f(r)
  }

  /** Visits, every source's count and every coordinate of the sufficient vectors are such quantities. */
  lemma AdditiveQuantities(source: string, k: nat)
    ensures Additive(Visits()) && Additive(FromSource(source)) && Additive(Coordinate(k))
  {
  }

  /** Hence no pass of merges changes their totals over the active nodes. */
  lemma {:induction false} MergePassConserves(num: Numerics, cfg: Config, s: Store, steps: seq<Step>, t: Store,
                                              f: MemoryNode -> real)
    requires Inv(num, cfg, s) && Reaches(num, cfg, s, steps, t) && OnlyMerges(steps) && Additive(f)
    ensures NodeTotal(t.nodes, f) == NodeTotal(s.nodes, f)
    decreases |steps|
  {
    if steps != [] {
      var middle := FirstMerge(num, cfg, s, steps, t);
      assert NodeOk(s.nodes[steps[0].left], cfg.dimension) && NodeOk(s.nodes[steps[0].right], cfg.dimension);
      MergeConserves(s.nodes, steps[0].left, steps[0].right, steps[0].node, f);
      MergePassConserves(num, cfg, middle, steps[1..], t, f);
    }
  }

  lemma MergeKeepsTotal(cfg: Config, s: Store, left: NodeId, right: NodeId, node: MemoryNode)
    requires left in s.nodes && right in s.nodes && left != right && s.visitCounts.Keys == s.nodes.Keys
    ensures TotalVisits(MergedStore(cfg, s, left, right, node)) == TotalVisits(s)
  {
    MergeTotalVisits(s.visitCounts, left, right);
  }

  lemma {:induction false} MergePassVisits(num: Numerics, cfg: Config, s: Store, steps: seq<Step>, t: Store)
    requires Inv(num, cfg, s) && Reaches(num, cfg, s, steps, t) && OnlyMerges(steps)
    ensures TotalVisits(t) == TotalVisits(s)
    decreases |steps|
  {
    if steps != [] {
      var middle := FirstMerge(num, cfg, s, steps, t);
      MergeKeepsTotal(cfg, s, steps[0].left, steps[0].right, steps[0].node);
      MergePassVisits(num, cfg, middle, steps[1..], t);
    }
  }

  lemma MergedStoreMass(s: Store, steps: seq<Step>, middle: Store)
    requires CoactivationsOk(s.nodes.Keys, s.coactivations)
    requires OnlyMerges(steps) && PairsApart(steps) && steps != [] && OnlyMerges(steps[1..])
    requires steps[0].left in s.nodes && steps[0].right in s.nodes && steps[0].left != steps[0].right
    requires middle.nodes.Keys == s.nodes.Keys - {steps[0].right}
    requires middle.coactivations == MergedCoactivations(s.nodes.Keys, s.coactivations, steps[0].left, steps[0].right)
    ensures Mass(middle.nodes.Keys, middle.coactivations) - PairsMass(middle.coactivations, steps[1..])
         == Mass(s.nodes.Keys, s.coactivations) - PairsMass(s.coactivations, steps)
  {
    FirstApart(steps);
    PairsMassUnmoved(s, steps[0].left, steps[0].right, steps[1..]);
    MergeMass(s, steps[0].left, steps[0].right);
  }

  /** Coactivation mass drops by exactly what the merged pairs had between themselves. */
  lemma {:induction false} MergePassMass(num: Numerics, cfg: Config, s: Store, steps: seq<Step>, t: Store)
    requires Inv(num, cfg, s)
    requires Reaches(num, cfg, s, steps, t) && OnlyMerges(steps) && PairsApart(steps)
    ensures Mass(t.nodes.Keys, t.coactivations)
         == Mass(s.nodes.Keys, s.coactivations) - PairsMass(s.coactivations, steps)
    decreases |steps|
  {
    if steps != [] {
      var middle := FirstMerge(num, cfg, s, steps, t);
      RestApart(steps);
      MergedStoreMass(s, steps, middle);
      MergePassMass(num, cfg, middle, steps[1..], t);
    }
  }

  /** What a pass of merges keeps in total: visits, every source's count, every
      coordinate of the sufficient vectors and the visit counts; coactivation
      drops by what the merged pairs had between themselves. */
  ghost predicate Conserved(s: Store, steps: seq<Step>, t: Store)
    requires OnlyMerges(steps)
  {
    && NodeTotal(t.nodes, Visits()) == NodeTotal(s.nodes, Visits())
    && (forall source {:trigger FromSource(source)} ::
          NodeTotal(t.nodes, FromSource(source)) == NodeTotal(s.nodes, FromSource(source)))
    && (forall k: nat {:trigger Coordinate(k)} ::
        NodeTotal(t.nodes, Coordinate(k)) == NodeTotal(s.nodes, Coordinate(k)))
    && TotalVisits(t) == TotalVisits(s)
    && Mass(t.nodes.Keys, t.coactivations) == Mass(s.nodes.Keys, s.coactivations) - PairsMass(s.coactivations, steps)
  }

  lemma PassConserves(num: Numerics, cfg: Config, s: Store, steps: seq<Step>, t: Store)
    requires Inv(num, cfg, s) && Reaches(num, cfg, s, steps, t) && OnlyMerges(steps) && PairsApart(steps)
    ensures Conserved(s, steps, t)
  {
    hide Inv, Reaches, OnlyMerges, PairsApart, Additive, NodeTotal, Mass, PairsMass, TotalVisits, Coordinate,
      FromSource;
    MergePassVisits(num, cfg, s, steps, t);
    MergePassMass(num, cfg, s, steps, t);
    AdditiveQuantities("", 0);
    MergePassConserves(num, cfg, s, steps, t, Visits());
    forall source
      ensures NodeTotal(t.nodes, FromSource(source)) == NodeTotal(s.nodes, FromSource(source))
    {
      AdditiveQuantities(source, 0);
      MergePassConserves(num, cfg, s, steps, t, FromSource(source));
    }
    forall k: nat
      ensures NodeTotal(t.nodes, Coordinate(k)) == NodeTotal(s.nodes, Coordinate(k))
    {
      AdditiveQuantities("", k);
      MergePassConserves(num, cfg, s, steps, t, Coordinate(k));
    }
  }
}

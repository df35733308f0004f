/** What a dream leaves behind, stated over its walks: who was counted together,
    whose memory was stretched, and the store the closing consolidation met. */
module DreamOutcomes {
  import opened Collections
  import opened Ranking
  import opened MemoryNodes
  import opened MemoryStore
  import opened StoreTheorems
  import opened StoreLoops
  import opened Dreaming
  import opened ConsolidationPass
  import opened Walking
  import PageRank

  // ----- Adding a table of meetings, pair by pair -----

  ghost function Noted(met: Pairs, done: set<(NodeId, NodeId)>, p: (NodeId, NodeId)): real {
    if p in done && p in met then met[p] else 0.0
  }

  ghost predicate PairGained(base: Pairs, now: Pairs, met: Pairs, done: set<(NodeId, NodeId)>, a: NodeId, b: NodeId) {
    Get(now, (a, b)) == Get(base, (a, b)) + Noted(met, done, (a, b)) + Noted(met, done, (b, a))
  }

  function Directed(done: set<(NodeId, NodeId)>): set<(NodeId, NodeId)> { done + set p | p in done :: (p.1, p.0) }

  function Ends(done: set<(NodeId, NodeId)>): set<NodeId> { (set p | p in done :: p.0) + set p | p in done :: p.1 }

  /** Each pair noted so far has grown by its count, in both directions. */
  ghost predicate PairsGained(base: Pairs, now: Pairs, met: Pairs, done: set<(NodeId, NodeId)>) {
    && now.Keys == base.Keys + Directed(done)
    && forall a, b {:trigger PairGained(base, now, met, done, a, b)} :: PairGained(base, now, met, done, a, b)
  }

  ghost function Part(met: Pairs, x: NodeId): ((NodeId, NodeId)) -> real {
    (p: (NodeId, NodeId)) => if p in met && (p.0 == x || p.1 == x) then met[p] else 0.0
  }

  ghost predicate VisitGained(base: Row, now: Row, met: Pairs, done: set<(NodeId, NodeId)>, x: NodeId) {
    Get(now, x) == Get(base, x) + Sum(done, Part(met, x))
  }

  /** Each node's visits have grown by the counts of the pairs it is in. */
  ghost predicate VisitsGained(base: Row, now: Row, met: Pairs, done: set<(NodeId, NodeId)>) {
    && now.Keys == base.Keys + Ends(done)
    && forall x {:trigger VisitGained(base, now, met, done, x)} :: VisitGained(base, now, met, done, x)
  }

  lemma NothingGained(visits: Row, pairs: Pairs, met: Pairs)
    ensures PairsGained(pairs, pairs, met, {}) && VisitsGained(visits, visits, met, {})
  {
  }

  lemma MoreMeetings(base: Pairs, now: Pairs, met: Pairs, done: set<(NodeId, NodeId)>, p: (NodeId, NodeId))
    requires PairsGained(base, now, met, done) && p in met && p !in done && p.0 != p.1
    ensures PairsGained(base, PairsAdded(now, PairMeetings(p, met[p])), met, done + {p})
  {
    var after := PairsAdded(now, PairMeetings(p, met[p]));
    assert p == (p.0, p.1);
    forall a, b
      ensures PairGained(base, after, met, done + {p}, a, b)
    {
      assert PairGained(base, now, met, done, a, b);
      assert Get(after, (a, b)) == Get(now, (a, b)) + Get(PairMeetings(p, met[p]), (a, b));
    }
  }

  lemma MoreVisits(base: Row, now: Row, met: Pairs, done: set<(NodeId, NodeId)>, p: (NodeId, NodeId))
    requires VisitsGained(base, now, met, done) && p in met && p !in done && p.0 != p.1
    ensures VisitsGained(base, RowAdded(now, PairVisits(p, met[p])), met, done + {p})
  {
    var after := RowAdded(now, PairVisits(p, met[p]));
    forall x
      ensures VisitGained(base, after, met, done + {p}, x)
    {
      assert VisitGained(base, now, met, done, x);
      SumInsert(done, Part(met, x), p);
      assert Get(after, x) == Get(now, x) + Get(PairVisits(p, met[p]), x);
    }
  }

  lemma SameGains(base: Pairs, now: Pairs, other: Pairs, met: Pairs, done: set<(NodeId, NodeId)>)
    requires PairsGained(base, now, met, done) && PairsGained(base, other, met, done)
    ensures now == other
  {
    forall p | p in now
      ensures now[p] == other[p]
    {
      assert p == (p.0, p.1);
      assert PairGained(base, now, met, done, p.0, p.1) && PairGained(base, other, met, done, p.0, p.1);
    }
  }

  lemma SameVisits(base: Row, now: Row, other: Row, met: Pairs, done: set<(NodeId, NodeId)>)
    requires VisitsGained(base, now, met, done) && VisitsGained(base, other, met, done)
    ensures now == other
  {
    forall x | x in now
      ensures now[x] == other[x]
    {
      assert VisitGained(base, now, met, done, x) && VisitGained(base, other, met, done, x);
    }
  }

  // ----- In terms of the walks -----

  ghost predicate SharedBy(base: Pairs, now: Pairs, walks: seq<set<NodeId>>, a: NodeId, b: NodeId) {
    Get(now, (a, b)) == Get(base, (a, b)) + MeetCount(walks, a, b) as real
  }

  lemma {:induction false} MeetCountSymmetric(walks: seq<set<NodeId>>, a: NodeId, b: NodeId)
    ensures MeetCount(walks, a, b) == MeetCount(walks, b, a)
    decreases |walks|
  {
    if walks != [] {
      MeetCountSymmetric(walks[..|walks| - 1], a, b);
    }
  }

  /** Two nodes' coactivation grows by the number of walks that visited both. */
  lemma SharedWalks(base: Pairs, now: Pairs, walks: seq<set<NodeId>>, a: NodeId, b: NodeId)
    requires PairsGained(base, now, MetOver(walks), MetOver(walks).Keys) && a != b
    ensures SharedBy(base, now, walks, a, b)
  {
    hide MetOver, MeetCount;
    assert PairGained(base, now, MetOver(walks), MetOver(walks).Keys, a, b);
    MetOverCounts(walks, a, b);
    MetOverCounts(walks, b, a);
    MeetCountSymmetric(walks, a, b);
  }

  /** `visited` is what the walks visited together. */
  ghost predicate Covers(walks: seq<set<NodeId>>, visited: set<NodeId>) {
    && (forall i | 0 <= i < |walks| :: walks[i] <= visited)
    && (forall x | x in visited :: exists i | 0 <= i < |walks| :: x in walks[i])
  }

  lemma CoversMore(walks: seq<set<NodeId>>, visited: set<NodeId>, seen: set<NodeId>)
    requires Covers(walks, visited)
    ensures Covers(walks + [seen], visited + seen)
  {
    var more := walks + [seen];
    assert more[|walks|] == seen;
    forall x | x in visited + seen
      ensures exists i | 0 <= i < |more| :: x in more[i]
    {
      if x in visited {
        var i :| 0 <= i < |walks| && x in walks[i];
        assert x in more[i];
      }
    }
  }

  lemma CoversOnce(walks: seq<set<NodeId>>, a: set<NodeId>, b: set<NodeId>)
    requires Covers(walks, a) && Covers(walks, b)
    ensures a == b
  {
  }

  // ----- The whole outcome -----

  function AllStretched(cfg: Config, nodes: Nodes, visited: set<NodeId>): Nodes {
    map id | id in nodes :: if id in visited then Stretched(cfg, nodes[id]) else nodes[id]
  }

  /** A dream from `s`: the edges decay, nodes are ranked, the walks are taken and
      counted, edges are learned afresh and visited nodes stretched, leaving `dreamt`. */
  datatype Dream = Dream(
    rank: Row, paths: seq<seq<NodeId>>, walks: seq<set<NodeId>>, visited: set<NodeId>,
    walked: Store, total: real, dreamt: Store)

  /** PageRank from every node alike. */
  ghost predicate Important(cfg: Config, nodes: Nodes, graph: Graph, rank: Row) {
    && nodes != map[]
    && PageRank.IsRank(graph, nodes.Keys, cfg.pagerankRestart, 1.0 - cfg.pagerankRestart,
                       PageRank.Restart(nodes.Keys, Once(nodes.Keys)), rank)
  }

  lemma ImportantOnce(cfg: Config, nodes: Nodes, graph: Graph, p: Row, q: Row)
    requires Important(cfg, nodes, graph, p) && Important(cfg, nodes, graph, q)
    ensures p == q
  {
    hide PageRank.IsRank, PageRank.Restart, Once;
    PageRank.OneRank(graph, nodes.Keys, cfg.pagerankRestart, 1.0 - cfg.pagerankRestart,
                     PageRank.Restart(nodes.Keys, Once(nodes.Keys)), p, q);
  }

  function NextCycle(cycle: nat): nat { if cycle < U64_MAX then cycle + 1 else U64_MAX }

  /** The store a dream walks over: edges decayed, the clock moved on, the cycle counted. */
  function Fallen(num: Numerics, cfg: Config, now: real, s: Store): Store {
    EdgesDecayed(num, cfg, s, now).(logicalTime := Max(s.logicalTime, now), dreamCounter := NextCycle(s.dreamCounter))
  }

  lemma FallenKeeps(num: Numerics, cfg: Config, now: real, s: Store)
    ensures Fallen(num, cfg, now, s).nodes == s.nodes && EdgesDecayed(num, cfg, s, now).dreamCounter == s.dreamCounter
    ensures var decayed := EdgesDecayed(num, cfg, s.(logicalTime := Max(s.logicalTime, now)), now);
      && decayed.dreamCounter == s.dreamCounter
      && decayed.(dreamCounter := NextCycle(s.dreamCounter)) == Fallen(num, cfg, now, s)
  {
  }

  /** The walks start where importance and their nonces say and follow the decayed
      edges; only what they counted changes the store. */
  ghost predicate Walked(num: Numerics, cfg: Config, now: real, s: Store, d: Dream) {
    var fallen := Fallen(num, cfg, now, s);
    && Important(cfg, s.nodes, fallen.graph, d.rank)
    && |d.walks| == cfg.dreamWalks
    && AllTaken(num, cfg, s.nodes, fallen.graph, s.dreamCounter, d.rank, d.paths, d.walks)
    && Covers(d.walks, d.visited) && d.visited <= s.nodes.Keys
    && d.walked == fallen.(coactivations := d.walked.coactivations, visitCounts := d.walked.visitCounts)
    && PairsGained(fallen.coactivations, d.walked.coactivations, MetOver(d.walks), MetOver(d.walks).Keys)
    && VisitsGained(fallen.visitCounts, d.walked.visitCounts, MetOver(d.walks), MetOver(d.walks).Keys)
  }

  ghost predicate Relearned(num: Numerics, cfg: Config, policy: Policy, d: Dream) {
    && d.total == TotalVisits(d.walked) + cfg.pmiEpsilon
    && d.dreamt == Refreshed(num, cfg, policy, d.walked, d.total).
                     (nodes := AllStretched(cfg, d.walked.nodes, d.visited))
  }

  /** Everything a dream does: the dream itself and the pass decided on the store it leaves. */
  ghost predicate Dreamt(num: Numerics, cfg: Config, policy: Policy, now: real, s: Store, d: Dream, pass: seq<Step>,
                         t: Store)
  {
    && Walked(num, cfg, now, s, d) && Relearned(num, cfg, policy, d)
    && pass == PassSteps(num, cfg, policy, d.dreamt) && Reaches(num, cfg, d.dreamt, pass, t)
    && OnlyMerges(pass) && PassOutcome(d.dreamt, pass, t)
  }

  /** With fewer than two nodes or no walks to take, there is no dream and nothing changes. */
  ghost predicate DreamEnds(num: Numerics, cfg: Config, policy: Policy, now: real, s: Store, d: Option<Dream>,
                            pass: seq<Step>,
                            t: Store)
  {
    && (d.Some? <==> |s.nodes| >= 2 && cfg.dreamWalks > 0)
    && (d.Some? ==> Dreamt(num, cfg, policy, now, s, d.value, pass, t))
    && (d.None? ==> pass == [] && t == s)
  }

  function WalksOf(cfg: Config, d: Option<Dream>): nat { if d.Some? then cfg.dreamWalks else 0 }

  function VisitedOf(d: Option<Dream>): nat { if d.Some? then |d.value.visited| else 0 }

  /** Two dreams from the same store at the same time rank, walk and count alike. */
  lemma WalksAreDetermined(num: Numerics, cfg: Config, now: real, s: Store, d: Dream, e: Dream)
    requires Walked(num, cfg, now, s, d) && Walked(num, cfg, now, s, e)
    ensures d.rank == e.rank && d.paths == e.paths && d.walks == e.walks
    ensures d.visited == e.visited && d.walked == e.walked
  {
    hide Important, AllTaken, Covers, PairsGained, VisitsGained, MetOver, Fallen;
    var fallen := Fallen(num, cfg, now, s);
    ImportantOnce(cfg, s.nodes, fallen.graph, d.rank, e.rank);
    EachHasPath(num, cfg, s.nodes, fallen.graph, s.dreamCounter, d.rank, d.paths, d.walks);
    EachHasPath(num, cfg, s.nodes, fallen.graph, s.dreamCounter, d.rank, e.paths, e.walks);
    CycleIsDetermined(num, cfg, s.nodes, fallen.graph, s.dreamCounter, d.rank, d.paths, d.walks, e.paths, e.walks);
    CoversOnce(d.walks, d.visited, e.visited);
    SameGains(fallen.coactivations, d.walked.coactivations, e.walked.coactivations, MetOver(d.walks),
              MetOver(d.walks).Keys);
    SameVisits(fallen.visitCounts, d.walked.visitCounts, e.walked.visitCounts, MetOver(d.walks), MetOver(d.walks).Keys);
  }

  lemma EachHasPath(num: Numerics, cfg: Config, nodes: Nodes, graph: Graph, cycle: nat, rank: Row,
                    paths: seq<seq<NodeId>>, walks: seq<set<NodeId>>)
    requires AllTaken(num, cfg, nodes, graph, cycle, rank, paths, walks)
    ensures |paths| == |walks|
  {
  }

  lemma TakenStarts(num: Numerics, cfg: Config, nodes: Nodes, graph: Graph, cycle: nat, rank: Row, walk: nat,
                    path: seq<NodeId>)
    requires Taken(num, cfg, nodes, graph, cycle, rank, walk, path)
    ensures path != [] && path[0] in Sorted(nodes.Keys)
  {
    hide Picks, Seeds, StepAt;
  }

  /** Every walk of a dream runs along positive edges of the decayed graph between
      active nodes, and what it visited is what the dream counts. */
  lemma DreamFollowsEdges(num: Numerics, cfg: Config, now: real, s: Store, d: Dream, i: nat)
    requires Walked(num, cfg, now, s, d) && i < cfg.dreamWalks
    ensures i < |d.paths| && IsWalk(Fallen(num, cfg, now, s).graph, d.paths[i])
    ensures d.walks[i] == ToSet(d.paths[i]) && ToSet(d.paths[i]) <= s.nodes.Keys
  {
    hide Important, Covers, PairsGained, VisitsGained, MetOver, Fallen, WalkPath, Picks, Seeds;
    var graph := Fallen(num, cfg, now, s).graph;
    EachHasPath(num, cfg, s.nodes, graph, s.dreamCounter, d.rank, d.paths, d.walks);
    assert WalkTaken(num, cfg, s.nodes, graph, s.dreamCounter, d.rank, d.paths, d.walks, i);
    SortedKeys(s.nodes.Keys);
    TakenStarts(num, cfg, s.nodes, graph, s.dreamCounter, d.rank, i, d.paths[i]);
    assert d.paths[i][0] in ToSet(Sorted(s.nodes.Keys));
    WalkFollowsEdges(num, cfg, s.nodes, graph, s.dreamCounter, i, d.paths[i]);
  }

  /** Two dreams from the same store, at the same time and under the same policy,
      are the same dream and end in the same store. */
  lemma DreamIsDetermined(num: Numerics, cfg: Config, policy: Policy, now: real, s: Store,
                          d: Dream, first: seq<Step>, t: Store, e: Dream, second: seq<Step>, u: Store)
    requires Dreamt(num, cfg, policy, now, s, d, first, t) && Dreamt(num, cfg, policy, now, s, e, second, u)
    ensures d == e && first == second && t == u
  {
    hide Walked, PassOutcome, OnlyMerges, Refreshed, AllStretched, PassSteps, Reaches, TotalVisits;
    WalksAreDetermined(num, cfg, now, s, d, e);
    ReachesOnce(num, cfg, d.dreamt, first, t, u);
  }

  // ----- Maintenance -----

  function Whole(sizes: seq<nat>): nat {
    if sizes == [] then 0 else Whole(sizes[..|sizes| - 1]) + sizes[|sizes| - 1]
  }

  /** Rounds go on until one merges nothing or none are left. */
  predicate RoundsOk(sizes: seq<nat>, maximum: nat) {
    && |sizes| <= maximum
    && (forall i | 0 <= i < |sizes| - 1 :: sizes[i] > 0)
    && (|sizes| < maximum ==> sizes != [] && sizes[|sizes| - 1] == 0)
  }

  /** Consolidation rounds: the store before each round and after the last, and
      how much each round merged. */
  datatype Rounds = Rounds(stores: seq<Store>, sizes: seq<nat>)

  /** Round `k` is the pass decided on the store it starts from. */
  ghost predicate RoundAt(num: Numerics, cfg: Config, policy: Policy, r: Rounds, k: nat)
    requires k < |r.sizes| && k + 1 < |r.stores|
  {
    var pass := PassSteps(num, cfg, policy, r.stores[k]);
    r.sizes[k] == |pass| && Reaches(num, cfg, r.stores[k], pass, r.stores[k + 1])
  }

  ghost predicate Rounded(num: Numerics, cfg: Config, policy: Policy, s: Store, r: Rounds, t: Store) {
    && |r.stores| == |r.sizes| + 1 && r.stores[0] == s && r.stores[|r.sizes|] == t
    && forall k: nat {:trigger RoundAt(num, cfg, policy, r, k)} | k < |r.sizes| :: RoundAt(num, cfg, policy, r, k)
  }

  /** The merges of the rounds that start from the listed stores, in order. */
  ghost function AllPasses(num: Numerics, cfg: Config, policy: Policy, stores: seq<Store>): seq<Step> {
    if stores == [] then []
    else AllPasses(num, cfg, policy, stores[..|stores| - 1]) + PassSteps(num, cfg, policy, stores[|stores| - 1])
  }

  ghost function RoundSteps(num: Numerics, cfg: Config, policy: Policy, r: Rounds): seq<Step> {
    AllPasses(num, cfg, policy, Take(r.stores, |r.sizes|))
  }

  /** Whole rounds under the stopping rule. */
  ghost predicate Consolidated(num: Numerics, cfg: Config, policy: Policy, maximum: nat, s: Store, r: Rounds, t: Store)
  {
    Rounded(num, cfg, policy, s, r, t) && RoundsOk(r.sizes, maximum)
  }

  lemma NoRounds(num: Numerics, cfg: Config, policy: Policy, s: Store)
    ensures Rounded(num, cfg, policy, s, Rounds([s], []), s) && Whole([]) == 0
    ensures RoundSteps(num, cfg, policy, Rounds([s], [])) == []
  {
  }

  lemma OneMoreRound(num: Numerics, cfg: Config, policy: Policy, s: Store, r: Rounds, t: Store, u: Store)
    requires Rounded(num, cfg, policy, s, r, t) && Reaches(num, cfg, t, PassSteps(num, cfg, policy, t), u)
    ensures var merged := |PassSteps(num, cfg, policy, t)|;
      && Rounded(num, cfg, policy, s, Rounds(r.stores + [u], r.sizes + [merged]), u)
      && Whole(r.sizes + [merged]) == Whole(r.sizes) + merged
    ensures RoundSteps(num, cfg, policy, Rounds(r.stores + [u], r.sizes + [|PassSteps(num, cfg, policy, t)|]))
      == RoundSteps(num, cfg, policy, r) + PassSteps(num, cfg, policy, t)
  {
    hide PassSteps, Reaches;
    var merged := |PassSteps(num, cfg, policy, t)|;
    var longer := Rounds(r.stores + [u], r.sizes + [merged]);
    forall k: nat | k < |longer.sizes|
      ensures RoundAt(num, cfg, policy, longer, k)
    {
      assert k < |r.sizes| ==> RoundAt(num, cfg, policy, r, k);
    }
    assert longer.sizes[..|r.sizes|] == r.sizes;
    var starts := Take(longer.stores, |longer.sizes|);
    assert Take(r.stores, |r.sizes|) == r.stores[..|r.sizes|];
    assert starts[..|starts| - 1] == r.stores[..|r.sizes|] && starts[|starts| - 1] == t;
  }

  lemma {:induction false} SameRounds(num: Numerics, cfg: Config, policy: Policy, s: Store, p: Rounds, t: Store,
                                      q: Rounds, u: Store,
                                      n: nat)
    requires Rounded(num, cfg, policy, s, p, t) && Rounded(num, cfg, policy, s, q, u) && n <= |p.sizes|
      && n <= |q.sizes|
    ensures p.stores[..n + 1] == q.stores[..n + 1] && p.sizes[..n] == q.sizes[..n]
  {
    hide PassSteps, Reaches;
    if n > 0 {
      SameRounds(num, cfg, policy, s, p, t, q, u, n - 1);
      var k := n - 1;
      assert p.stores[k] == p.stores[..k + 1][k] == q.stores[..k + 1][k] == q.stores[k];
      assert RoundAt(num, cfg, policy, p, k) && RoundAt(num, cfg, policy, q, k);
      ReachesOnce(num, cfg, p.stores[k], PassSteps(num, cfg, policy, p.stores[k]), p.stores[n], q.stores[n]);
      assert p.stores[..n + 1] == p.stores[..n] + [p.stores[n]] && q.stores[..n + 1] == q.stores[..n] + [q.stores[n]];
      assert p.sizes[..n] == p.sizes[..k] + [p.sizes[k]] && q.sizes[..n] == q.sizes[..k] + [q.sizes[k]];
    }
  }

  lemma NotLonger(num: Numerics, cfg: Config, policy: Policy, maximum: nat, s: Store, p: Rounds, t: Store, q: Rounds,
                  u: Store)
    requires Consolidated(num, cfg, policy, maximum, s, p, t) && Consolidated(num, cfg, policy, maximum, s, q, u)
    ensures |p.sizes| >= |q.sizes|
  {
    hide RoundAt;
    var n := if |p.sizes| < |q.sizes| then |p.sizes| else |q.sizes|;
    SameRounds(num, cfg, policy, s, p, t, q, u, n);
    if n > 0 {
      assert p.sizes[n - 1] == p.sizes[..n][n - 1] == q.sizes[..n][n - 1] == q.sizes[n - 1];
    }
  }

  /** Rounds from the same store are the same rounds. */
  lemma RoundsAreDetermined(num: Numerics, cfg: Config, policy: Policy, maximum: nat, s: Store, p: Rounds, t: Store,
                            q: Rounds, u: Store)
    requires Consolidated(num, cfg, policy, maximum, s, p, t) && Consolidated(num, cfg, policy, maximum, s, q, u)
    ensures p == q && t == u
  {
    hide RoundAt;
    NotLonger(num, cfg, policy, maximum, s, p, t, q, u);
    NotLonger(num, cfg, policy, maximum, s, q, u, p, t);
    SameRounds(num, cfg, policy, s, p, t, q, u, |p.sizes|);
    assert p.stores[..|p.sizes| + 1] == p.stores && q.stores[..|p.sizes| + 1] == q.stores;
    assert p.sizes[..|p.sizes|] == p.sizes && q.sizes[..|p.sizes|] == q.sizes;
  }

  /** The nodes a prune takes: unprotected, weak enough and unseen for long enough. */
  predicate Prunable(cfg: Config, node: MemoryNode, now: real) {
    node.weight < cfg.pruneWeightThreshold && Max(now - node.lastSeen, 0.0) >= cfg.minimumPruneAge
  }

  function Doomed(cfg: Config, nodes: Nodes, now: real, protected: set<NodeId>): set<NodeId> {
    set id | id in nodes && id !in protected && Prunable(cfg, nodes[id], now)
  }

  /** The store a prune leaves. */
  function PrunedStore(num: Numerics, cfg: Config, s: Store, now: real, protected: set<NodeId>): Store {
    var decayed := NodesDecayed(num, cfg, s, now);
    PrunedAll(decayed, Doomed(cfg, decayed.nodes, now, protected))
  }

  /** The parts of a maintenance: rounds, what pruning left, the dream if there was
      one with its pass and the store after it, and rounds again. */
  datatype Maintenance = Maintenance(
    before: Rounds, kept: Store, dream: Option<Dream>, pass: seq<Step>, rested: Store, after: Rounds)

  ghost predicate Maintained(num: Numerics, cfg: Config, policy: Policy, now: real, maximum: nat,
                             protected: set<NodeId>,
                             s: Store, m: Maintenance, t: Store)
  {
    && m.before.stores != [] && m.after.stores != []
    && Consolidated(num, cfg, policy, maximum, s, m.before, m.before.stores[|m.before.stores| - 1])
    && m.kept == PrunedStore(num, cfg, m.before.stores[|m.before.stores| - 1], now, protected)
    && DreamEnds(num, cfg, policy, now, m.kept, m.dream, m.pass, m.rested)
    && Consolidated(num, cfg, policy, maximum, m.rested, m.after, t)
  }

  /** Maintenance is determined: the same store, time, rounds, protected nodes and
      policy give the same rounds, the same dream and the same store. */
  lemma MaintenanceIsDetermined(num: Numerics, cfg: Config, policy: Policy, now: real, maximum: nat,
                                protected: set<NodeId>,
                                s: Store, m: Maintenance, t: Store, n: Maintenance, u: Store)
    requires Maintained(num, cfg, policy, now, maximum, protected, s, m, t)
    requires Maintained(num, cfg, policy, now, maximum, protected, s, n, u)
    ensures m == n && t == u
  {
    hide Consolidated, PrunedStore, Dreamt;
    RoundsAreDetermined(num, cfg, policy, maximum, s, m.before, m.before.stores[|m.before.stores| - 1],
                        n.before, n.before.stores[|n.before.stores| - 1]);
    if m.dream.Some? {
      DreamIsDetermined(num, cfg, policy, now, m.kept, m.dream.value, m.pass, m.rested, n.dream.value, n.pass,
                        n.rested);
    }
    RoundsAreDetermined(num, cfg, policy, maximum, m.rested, m.after, t, n.after, u);
  }
}

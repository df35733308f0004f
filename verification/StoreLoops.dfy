/** Facts the loops of the memory store need: how one iteration extends the
    value-level description of what the loop has done so far. */
module StoreLoops {
  import opened Collections
  import opened Ranking
  import opened MemoryNodes
  import opened MemoryStore
  import opened StoreInvariant

  // ----- Coactivation counting -----

  /** One meeting for each listed pair. */
  function PairsOnce(done: set<(NodeId, NodeId)>): Pairs { map p | p in done :: 1.0 }

  lemma BumpPair(co: Pairs, done: set<(NodeId, NodeId)>, p: (NodeId, NodeId),
                 now: Pairs)
    requires p !in done && now == PairsAdded(co, PairsOnce(done))
    ensures now[p := Get(now, p) + 1.0] == PairsAdded(co, PairsOnce(done + {p}))
  {
  }

  lemma BumpVisit(counts: Row, done: set<NodeId>, id: NodeId, now: Row)
    requires id !in done && now == RowAdded(counts, Once(done))
    ensures now[id := Get(now, id) + 1.0] == RowAdded(counts, Once(done + {id}))
  {
  }

  lemma NothingAdded(counts: Row, co: Pairs)
    ensures RowAdded(counts, Once({})) == counts && PairsAdded(co, PairsOnce({})) == co
  {
  }

  lemma TogetherKeeps(num: Numerics, cfg: Config, s: Store, ids: set<NodeId>)
    requires Inv(num, cfg, s) && ids <= s.nodes.Keys
    ensures Countable(s, Once(ids), Together(ids))
    ensures Inv(num, cfg, Counted(s, Once(ids), Together(ids)))
  {
    CountKeeps(num, cfg, s, Once(ids), Together(ids));
  }

  /** Positions already paired before turn (i, j) of the triangular loop. */
  predicate Paired(a: nat, b: nat, i: nat, j: nat) {
    a != b && (a < i || b < i || (a == i && b < j) || (b == i && a < j))
  }

  ghost predicate MetSoFar(ids: seq<NodeId>, done: set<(NodeId, NodeId)>, i: nat, j: nat) {
    && (forall a, b {:trigger Paired(a, b, i, j)} | 0 <= a < |ids| && 0 <= b < |ids| ::
          (ids[a], ids[b]) in done <==> Paired(a, b, i, j))
    && (forall p | p in done :: p.0 in ids && p.1 in ids)
  }

  lemma MetExtends(ids: seq<NodeId>, i: nat, j: nat, done: set<(NodeId, NodeId)>)
    requires Distinct(ids) && i < j < |ids| && MetSoFar(ids, done, i, j)
    ensures (ids[i], ids[j]) !in done && (ids[j], ids[i]) !in done
    ensures MetSoFar(ids, done + {(ids[i], ids[j]), (ids[j], ids[i])}, i, j + 1)
  {
    var next := done + {(ids[i], ids[j]), (ids[j], ids[i])};
    forall a, b | 0 <= a < |ids| && 0 <= b < |ids|
      ensures (ids[a], ids[b]) in next <==> Paired(a, b, i, j + 1)
    {
      assert ids[a] == ids[i] <==> a == i;
      assert ids[a] == ids[j] <==> a == j;
      assert ids[b] == ids[i] <==> b == i;
      assert ids[b] == ids[j] <==> b == j;
      assert (ids[a], ids[b]) in done <==> Paired(a, b, i, j);
    }
    assert !Paired(i, j, i, j) && !Paired(j, i, i, j);
  }

  lemma MetNothing(ids: seq<NodeId>)
    ensures MetSoFar(ids, {}, 0, 0)
  {
  }

  /** Starting a row meets nobody new. */
  lemma MetRowStart(ids: seq<NodeId>, i: nat, done: set<(NodeId, NodeId)>)
    requires i < |ids| && MetSoFar(ids, done, i, i)
    ensures MetSoFar(ids, done, i, i + 1)
  {
    forall a, b | 0 <= a < |ids| && 0 <= b < |ids|
      ensures (ids[a], ids[b]) in done <==> Paired(a, b, i, i + 1)
    {
      assert Paired(a, b, i, i) <==> Paired(a, b, i, i + 1);
    }
  }

  /** Finishing a row passes its position. */
  lemma MetRowEnd(ids: seq<NodeId>, i: nat, done: set<(NodeId, NodeId)>)
    requires i < |ids| && MetSoFar(ids, done, i, |ids|)
    ensures MetSoFar(ids, done, i + 1, i + 1)
  {
    forall a, b | 0 <= a < |ids| && 0 <= b < |ids|
      ensures (ids[a], ids[b]) in done <==> Paired(a, b, i + 1, i + 1)
    {
      assert Paired(a, b, i, |ids|) <==> Paired(a, b, i + 1, i + 1);
    }
  }

  /** Counting one pair in both directions. */
  lemma BumpBoth(base: Pairs, done: set<(NodeId, NodeId)>, a: NodeId, b: NodeId,
                 now: Pairs, next: Pairs)
    requires a != b && (a, b) !in done && (b, a) !in done
    requires now == PairsAdded(base, PairsOnce(done))
    requires next == now[(a, b) := Get(now, (a, b)) + 1.0]
    ensures next[(b, a) := Get(next, (b, a)) + 1.0] == PairsAdded(base, PairsOnce(done + {(a, b), (b, a)}))
  {
    BumpPair(base, done, (a, b), now);
    BumpPair(base, done + {(a, b)}, (b, a), next);
    assert done + {(a, b)} + {(b, a)} == done + {(a, b), (b, a)};
  }

  lemma AllMet(ids: seq<NodeId>, done: set<(NodeId, NodeId)>)
    requires Distinct(ids) && MetSoFar(ids, done, |ids|, |ids|)
    ensures PairsOnce(done) == Together(ToSet(ids))
  {
    var pairs, all := PairsOnce(done), Together(ToSet(ids));
    forall p | p in all
      ensures p in pairs
    {
      var a :| 0 <= a < |ids| && ids[a] == p.0;
      var b :| 0 <= b < |ids| && ids[b] == p.1;
      assert Paired(a, b, |ids|, |ids|);
    }
    forall p | p in pairs
      ensures p in all
    {
      var a :| 0 <= a < |ids| && ids[a] == p.0;
      var b :| 0 <= b < |ids| && ids[b] == p.1;
      assert !Paired(a, a, |ids|, |ids|);
    }
  }

  // ----- Edge refresh -----

  function Only(weights: Pairs, done: set<(NodeId, NodeId)>): Pairs {
    map p | p in weights && p in done :: weights[p]
  }

  lemma NothingBlended(graph: Graph, weights: Pairs)
    ensures Blended(graph, Only(weights, {})) == graph
  {
    var none := Only(weights, {});
    forall x | x in graph
      ensures Overlaid(graph[x], none, x) == graph[x]
    {
    }
  }

  lemma OverlayStep(row: Row, weights: Pairs, done: set<(NodeId, NodeId)>, x: NodeId, y: NodeId)
    requires (x, y) in weights && (x, y) !in done
    ensures Get(Overlaid(row, Only(weights, done), x), y) == Get(row, y)
    ensures Overlaid(row, Only(weights, done + {(x, y)}), x)
         == Overlaid(row, Only(weights, done), x)[y := weights[(x, y)]]
  {
    var before, after := Overlaid(row, Only(weights, done), x), Overlaid(row, Only(weights, done + {(x, y)}), x);
    assert (x, y) in Only(weights, done + {(x, y)}) && (x, y).1 == y;
    forall z | z in before.Keys + {y}
      ensures z in after
    {
      if z in before && z !in row {
        assert (x, z) in Only(weights, done);
        assert (x, z) in Only(weights, done + {(x, y)}) && (x, z).1 == z;
      }
    }
    assert after.Keys == before.Keys + {y};
  }

  lemma OverlayElsewhere(row: Row, weights: Pairs, done: set<(NodeId, NodeId)>,
                         p: (NodeId, NodeId), z: NodeId)
    requires p.0 != z
    ensures Overlaid(row, Only(weights, done + {p}), z) == Overlaid(row, Only(weights, done), z)
  {
    var before, after := Only(weights, done), Only(weights, done + {p});
    assert (set q | q in after && q.0 == z :: q.1) == (set q | q in before && q.0 == z :: q.1);
  }

  lemma BlendKeys(base: Graph, weights: Pairs, done: set<(NodeId, NodeId)>,
                  p: (NodeId, NodeId))
    requires p in weights
    ensures Blended(base, Only(weights, done + {p})).Keys == Blended(base, Only(weights, done)).Keys + {p.0}
  {
    var before, after := Only(weights, done), Only(weights, done + {p});
    assert after.Keys == before.Keys + {p};
    assert (set q | q in after :: q.0) == (set q | q in before :: q.0) + {p.0};
  }

  lemma BlendedRowAt(base: Graph, weights: Pairs, x: NodeId)
    ensures RowOf(Blended(base, weights), x) == Overlaid(RowOf(base, x), weights, x)
  {
    if x !in Blended(base, weights) {
      assert Overlaid(RowOf(base, x), weights, x) == map[];
    }
  }

  lemma OneRowChanged(graph: Graph, after: Graph, x: NodeId, row: Row)
    requires after.Keys == graph.Keys + {x} && after[x] == row
    requires forall z | z in graph && z != x :: after[z] == graph[z]
    ensures graph[x := row] == after
  {
  }

  /** Blending one more pair writes exactly its own entry. */
  lemma BlendStep(base: Graph, weights: Pairs, done: set<(NodeId, NodeId)>,
                  p: (NodeId, NodeId), graph: Graph)
    requires p in weights && p !in done && graph == Blended(base, Only(weights, done))
    ensures Get(RowOf(graph, p.0), p.1) == Get(RowOf(base, p.0), p.1)
    ensures graph[p.0 := RowOf(graph, p.0)[p.1 := weights[p]]] == Blended(base, Only(weights, done + {p}))
  {
    var after := Blended(base, Only(weights, done + {p}));
    BlendOwnRow(base, weights, done, p.0, p.1);
    BlendKeys(base, weights, done, p);
    BlendElsewhere(base, weights, done, p.0, p.1);
    assert p == (p.0, p.1);
    OneRowChanged(graph, after, p.0, RowOf(graph, p.0)[p.1 := weights[p]]);
  }

  lemma BlendOwnRow(base: Graph, weights: Pairs, done: set<(NodeId, NodeId)>,
                    x: NodeId, y: NodeId)
    requires (x, y) in weights && (x, y) !in done
    ensures Get(RowOf(Blended(base, Only(weights, done)), x), y) == Get(RowOf(base, x), y)
    ensures RowOf(Blended(base, Only(weights, done + {(x, y)})), x)
         == RowOf(Blended(base, Only(weights, done)), x)[y := weights[(x, y)]]
  {
    OverlayStep(RowOf(base, x), weights, done, x, y);
    BlendedRowAt(base, Only(weights, done), x);
    BlendedRowAt(base, Only(weights, done + {(x, y)}), x);
  }

  lemma BlendElsewhere(base: Graph, weights: Pairs, done: set<(NodeId, NodeId)>,
                       x: NodeId, y: NodeId)
    requires (x, y) in weights
    ensures forall z | z != x && z in Blended(base, Only(weights, done)) ::
      && z in Blended(base, Only(weights, done + {(x, y)}))
      && Blended(base, Only(weights, done + {(x, y)}))[z] == Blended(base, Only(weights, done))[z]
  {
    BlendKeys(base, weights, done, (x, y));
    forall z | z != x && z in Blended(base, Only(weights, done))
      ensures Blended(base, Only(weights, done + {(x, y)}))[z] == Blended(base, Only(weights, done))[z]
    {
      OverlayElsewhere(RowOf(base, z), weights, done, (x, y), z);
      BlendedRowAt(base, Only(weights, done), z);
      BlendedRowAt(base, Only(weights, done + {(x, y)}), z);
    }
  }

  lemma AllBlended(graph: Graph, weights: Pairs, done: set<(NodeId, NodeId)>)
    requires done == weights.Keys
    ensures Blended(graph, Only(weights, done)) == Blended(graph, weights)
  {
    assert Only(weights, done) == weights;
  }

  // ----- Merging -----

  /** The graph (already without `right`'s row) once the neighbours in `done` are redirected. */
  function Redirected(base: Graph, left: NodeId, right: NodeId, done: set<NodeId>): Graph {
    map x | x in base && x != right :: RedirectedSoFar(base, left, right, done, x)
  }

  function RedirectedSoFar(base: Graph, left: NodeId, right: NodeId, done: set<NodeId>, x: NodeId): Row {
    if x == left then Strongest(RowOf(base, left), OnlyIn(RowOf(base, right), done))
    else if x in done then Strongest(RowOf(base, x), map[left := Get(RowOf(base, x), right)])
    else RowOf(base, x)
  }

  function OnlyIn(row: Row, ids: set<NodeId>): Row { map y | y in row && y in ids :: row[y] }

  lemma StrongestStep(a: Row, b: Row, done: set<NodeId>, y: NodeId)
    requires y in b && y !in done
    ensures Strongest(Strongest(a, OnlyIn(b, done)), map[y := b[y]]) == Strongest(a, OnlyIn(b, done + {y}))
  {
  }

  lemma NothingRedirected(base: Graph, left: NodeId, right: NodeId)
    ensures Redirected(base, left, right, {}) == base - {right}
  {
    assert OnlyIn(RowOf(base, right), {}) == map[];
    assert Strongest(RowOf(base, left), map[]) == RowOf(base, left);
  }

  /** Redirecting one neighbour raises the edge in both rows. */
  lemma RedirectStep(base: Graph, left: NodeId, right: NodeId, done: set<NodeId>, x: NodeId,
                     now: Graph, next: Graph)
    requires left in base && x in base && left != right && x != left && x != right
    requires x in RowOf(base, right) && x !in done
    requires now == Redirected(base, left, right, done)
    requires next == now[left := Strongest(RowOf(now, left), map[x := RowOf(base, right)[x]])]
    ensures next[x := Strongest(RowOf(next, x), map[left := Get(RowOf(next, x), right)])]
         == Redirected(base, left, right, done + {x})
  {
    var after := Redirected(base, left, right, done + {x});
    StrongestStep(RowOf(base, left), RowOf(base, right), done, x);
    assert after[left] == next[left];
    assert next[x] == RowOf(base, x);
    forall z | z in next && z != x
      ensures after[z] == next[z]
    {
      assert z != left ==> next[z] == RedirectedSoFar(base, left, right, done, z);
    }
    OneRowChanged(next, after, x, after[x]);
  }

  lemma ClearedOther(graph: Graph, left: NodeId, right: NodeId, x: NodeId)
    requires x in graph && x != left && x != right
    ensures RedirectedSoFar(graph, left, right, RowOf(graph, right).Keys - {left}, x) - {right}
         == RedirectedRow(graph, left, right, x)
  {
  }

  lemma ClearedSurvivor(a: Row, b: Row, left: NodeId, right: NodeId)
    ensures Strongest(a, OnlyIn(b, b.Keys - {left})) - {right} - {left} == Strongest(a, b) - {left, right}
  {
  }

  /** Once every neighbour is redirected, dropping `right` everywhere and cutting
      the survivor's row leaves the merged graph. */
  lemma AllRedirected(cfg: Config, graph: Graph, left: NodeId, right: NodeId, now: Graph, cleared: Graph)
    requires left in graph && left != right
    requires now == Redirected(graph, left, right, RowOf(graph, right).Keys - {left})
    requires cleared == GraphWithout(now, right)
    ensures cleared[left := Trimmed(cleared[left] - {left}, cfg.topEdges)] == MergedGraph(cfg, graph, left, right)
  {
    var merged := MergedGraph(cfg, graph, left, right);
    ClearedSurvivor(RowOf(graph, left), RowOf(graph, right), left, right);
    forall x | x in cleared && x != left
      ensures merged[x] == cleared[x]
    {
      ClearedOther(graph, left, right, x);
    }
    OneRowChanged(cleared, merged, left, merged[left]);
  }

  lemma {:induction false} LoopRedirects(active: set<NodeId>, graph: Graph, left: NodeId, right: NodeId,
                                         order: seq<NodeId>)
    requires GraphOk(active, graph) && left in active && left != right && right in active
    requires Distinct(order) && ToSet(order) <= RowOf(graph, right).Keys - {left}
    ensures RedirectAll(graph - {right}, left, right, RowOf(graph, right), order)
         == Redirected(graph, left, right, ToSet(order))
    decreases |order|
  {
    hide Redirected, GraphOk;
    if order == [] {
      NothingRedirected(graph, left, right);
      assert ToSet(order) == {};
    } else {
      var front, x := order[..|order| - 1], order[|order| - 1];
      assert order == front + [x];
      SetOfConcat(front, [x]);
      assert ToSet([x]) == {x} && x in ToSet(order) && x !in ToSet(front);
      LoopRedirects(active, graph, left, right, front);
      NeighborIsOther(active, graph, right, x);
      var now := Redirected(graph, left, right, ToSet(front));
      var raised := now[left := Strongest(RowOf(now, left), map[x := RowOf(graph, right)[x]])];
      RedirectStep(graph, left, right, ToSet(front), x, now, raised);
    }
  }

  lemma NeighborIsOther(active: set<NodeId>, graph: Graph, right: NodeId, x: NodeId)
    requires GraphOk(active, graph) && right in active && x in RowOf(graph, right)
    ensures x in graph && x != right
    ensures active <= graph.Keys
  {
    assert RowOk(active, right, graph[right]);
  }

  /** On a graph without self-edges the loops, in any order, give the merged graph. */
  lemma LoopsGiveMergedGraph(cfg: Config, active: set<NodeId>, graph: Graph, left: NodeId, right: NodeId,
                             order: seq<NodeId>)
    requires GraphOk(active, graph) && left in active && right in active && left != right
    requires ListsEntries(order, RowOf(graph, right), left)
    ensures MergeLoops(cfg, graph, left, right, order) == MergedGraph(cfg, graph, left, right)
  {
    hide MergedGraph, Redirected, RedirectAll, GraphOk;
    LoopRedirects(active, graph, left, right, order);
    var now := Redirected(graph, left, right, ToSet(order));
    SurvivorStays(active, graph, left, right, ToSet(order));
    assert Cleared(now, right) == GraphWithout(now, right);
    AllRedirected(cfg, graph, left, right, now, GraphWithout(now, right));
  }

  lemma SurvivorStays(active: set<NodeId>, graph: Graph, left: NodeId, right: NodeId, done: set<NodeId>)
    requires GraphOk(active, graph) && left in active && left != right
    ensures left in graph && left in Redirected(graph, left, right, done)
    ensures right !in Redirected(graph, left, right, done)
  {
  }

  lemma NothingJoined(co: Pairs, left: NodeId, right: NodeId)
    ensures Joined(co, left, right, {}) == co
  {
  }

  lemma PairsWithStep(left: NodeId, joined: set<NodeId>, x: NodeId)
    ensures PairsWith(left, joined + {x}) == PairsWith(left, joined) + {(left, x), (x, left)}
  {
    assert (set z | z in joined + {x} :: (left, z)) == (set z | z in joined :: (left, z)) + {(left, x)};
    assert (set z | z in joined + {x} :: (z, left)) == (set z | z in joined :: (z, left)) + {(x, left)};
  }

  lemma JoinKeys(co: Pairs, left: NodeId, right: NodeId, joined: set<NodeId>, x: NodeId)
    ensures Joined(co, left, right, joined + {x}).Keys == Joined(co, left, right, joined).Keys + {(left, x), (x, left)}
  {
    PairsWithStep(left, joined, x);
    assert Joined(co, left, right, joined).Keys == co.Keys + PairsWith(left, joined);
    assert Joined(co, left, right, joined + {x}).Keys == co.Keys + PairsWith(left, joined + {x});
  }

  lemma JoinValues(co: Pairs, left: NodeId, right: NodeId, joined: set<NodeId>, x: NodeId)
    requires x != left && left !in joined
    ensures forall p | p in Joined(co, left, right, joined + {x}) ::
      Joined(co, left, right, joined + {x})[p]
      == if p == (left, x) || p == (x, left) then PairCount(co, left, right, x)
         else Get(Joined(co, left, right, joined), p)
  {
    JoinKeys(co, left, right, joined, x);
  }

  /** Joining one more neighbour writes its two entries and nothing else. */
  lemma JoinStep(co: Pairs, left: NodeId, right: NodeId, joined: set<NodeId>, x: NodeId,
                 now: Pairs, c: real)
    requires x != left && left !in joined && c == PairCount(co, left, right, x)
    requires now == Joined(co, left, right, joined)
    ensures now[(left, x) := c][(x, left) := c] == Joined(co, left, right, joined + {x})
  {
    JoinKeys(co, left, right, joined, x);
    JoinValues(co, left, right, joined, x);
    TwoWritten(now, Joined(co, left, right, joined + {x}), (left, x), (x, left), c);
  }

  lemma TwoWritten(now: Pairs, after: Pairs,
                   p: (NodeId, NodeId), q: (NodeId, NodeId), c: real)
    requires after.Keys == now.Keys + {p, q}
    requires forall r | r in after :: after[r] == if r == p || r == q then c else Get(now, r)
    ensures now[p := c][q := c] == after
  {
  }

  lemma JoinReads(co: Pairs, left: NodeId, right: NodeId, joined: set<NodeId>, x: NodeId)
    requires x != left && left != right && x !in joined && left !in joined
    ensures Get(Joined(co, left, right, joined), (left, x)) == Get(co, (left, x))
    ensures x != right ==> Get(Joined(co, left, right, joined), (right, x)) == Get(co, (right, x))
  {
  }

  lemma AllJoined(active: set<NodeId>, co: Pairs, left: NodeId, right: NodeId, joined: set<NodeId>)
    requires forall x | x in joined :: x in active && x != left && x != right
    requires forall x | x in active && x != left && x != right ::
      x in joined <==> PairCount(co, left, right, x) > 0.0
    ensures PairsWithout(Joined(co, left, right, joined), right) == MergedCoactivations(active, co, left, right)
  {
    assert joined == set x | x in active && x != left && x != right && PairCount(co, left, right, x) > 0.0;
  }

  // ----- Dreaming -----

  /** The counts one met pair adds: to both nodes' visits and to both directions. */
  function PairVisits(p: (NodeId, NodeId), c: real): Row { map[p.0 := c, p.1 := c] }

  function PairMeetings(p: (NodeId, NodeId), c: real): Pairs {
    map[p := c, (p.1, p.0) := c]
  }

  lemma PairIsCountable(s: Store, p: (NodeId, NodeId), c: real)
    requires p.0 in s.nodes && p.1 in s.nodes && p.0 != p.1 && c >= 0.0
    ensures Countable(s, PairVisits(p, c), PairMeetings(p, c))
  {
    assert p == (p.0, p.1);
  }

  lemma PairCounted(counts: Row, co: Pairs, p: (NodeId, NodeId), c: real)
    requires p.0 != p.1
    ensures counts[p.0 := Get(counts, p.0) + c][p.1 := Get(counts, p.1) + c] == RowAdded(counts, PairVisits(p, c))
    ensures co[p := Get(co, p) + c][(p.1, p.0) := Get(co, (p.1, p.0)) + c] == PairsAdded(co, PairMeetings(p, c))
  {
    assert p == (p.0, p.1);
  }
}

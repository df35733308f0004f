/** Personalized PageRank over the memory graph: the scattering loop against an
    entrywise definition, and conservation of probability under graph closure. */
module PageRank {
  import opened Collections
  import opened Ranking
  import opened MemoryStore
  import opened StoreInvariant

  function Clipped(w: real): real { Max(w, 0.0) }

  function Times(a: real, b: real): real { a * b }

  function Share(mass: real, weight: real, total: real): real
    requires total != 0.0
  {
    mass * weight / total
  }

  ghost function EdgeWeights(row: Row): NodeId -> real { (y: NodeId) => Clipped(Get(row, y)) }

  ghost function Values(row: Row): NodeId -> real { (id: NodeId) => Get(row, id) }

  ghost function RowTotal(row: Row): real { Sum(row.Keys, EdgeWeights(row)) }

  /** What a node with this row and this much `mass` to pass on sends to `target`;
      a row without positive weight keeps its mass. */
  ghost function Sent(row: Row, active: set<NodeId>, mass: real, source: NodeId, target: NodeId): real {
    var total := RowTotal(row);
    if total <= 0.0 then (if source == target then mass else 0.0)
    else if target in row && target in active then Share(mass, Clipped(row[target]), total)
    else 0.0
  }

  ghost function Outflow(row: Row, active: set<NodeId>, mass: real, source: NodeId): NodeId -> real {
    (t: NodeId) => Sent(row, active, mass, source, t)
  }

  ghost function Inflow(graph: Graph, active: set<NodeId>, keep: real, rank: Row, target: NodeId): NodeId -> real {
    (s: NodeId) => Sent(RowOf(graph, s), active, Times(keep, Get(rank, s)), s, target)
  }

  /** One iteration, entry by entry. */
  ghost function NextAt(graph: Graph, active: set<NodeId>, alpha: real, keep: real, restart: Row, rank: Row,
                        target: NodeId): real
  {
    Times(alpha, Get(restart, target)) + Sum(active, Inflow(graph, active, keep, rank, target))
  }

  ghost predicate IsNext(graph: Graph, active: set<NodeId>, alpha: real, keep: real, restart: Row, rank: Row, next: Row)
  {
    next.Keys == active && forall t | t in active :: next[t] == NextAt(graph, active, alpha, keep, restart, rank, t)
  }

  /** A probability distribution over the active nodes. */
  ghost predicate Distribution(active: set<NodeId>, rank: Row) {
    && rank.Keys <= active
    && (forall id | id in rank :: rank[id] >= 0.0)
    && Sum(active, Values(rank)) == 1.0
  }

  ghost function Shares(f: NodeId -> real, c: real, total: real): NodeId -> real
    requires total != 0.0
  {
    (k: NodeId) => Share(c, f(k), total)
  }

  ghost function Scaled(f: NodeId -> real, c: real): NodeId -> real { (k: NodeId) => Times(c, f(k)) }

  lemma Reassociate(c: real, x: real, total: real, q: real)
    requires total != 0.0 && q == c / total
    ensures Share(c, x, total) == Times(q, x)
    ensures Times(q, total) == c
  {
  }

  lemma ScaledSum(keys: set<NodeId>, f: NodeId -> real, c: real)
    ensures Sum(keys, Scaled(f, c)) == Times(c, Sum(keys, f))
  {
    SumScaled(keys, f, c);
    SumSame(keys, Scaled(f, c), (k: NodeId) => c * f(k));
  }

  lemma ShareSum(keys: set<NodeId>, f: NodeId -> real, c: real, total: real)
    requires total > 0.0 && Sum(keys, f) == total
    ensures Sum(keys, Shares(f, c, total)) == c
  {
    var q := c / total;
    forall k | k in keys
      ensures Shares(f, c, total)(k) == Scaled(f, q)(k)
    {
      Reassociate(c, f(k), total, q);
    }
    SumSame(keys, Shares(f, c, total), Scaled(f, q));
    ScaledSum(keys, f, q);
    Reassociate(c, 0.0, total, q);
  }

  lemma DanglingOutflow(row: Row, active: set<NodeId>, mass: real, source: NodeId)
    requires RowTotal(row) <= 0.0 && source in active
    ensures Sum(active, Outflow(row, active, mass, source)) == mass
  {
    var sent := Outflow(row, active, mass, source);
    SumSupport(active, {source}, sent);
    SumPick({source}, sent, source);
    assert {source} - {source} == {};
  }

  lemma SharedOutflow(row: Row, active: set<NodeId>, mass: real, source: NodeId, total: real)
    requires total == RowTotal(row) > 0.0 && row.Keys <= active
    ensures Sum(active, Outflow(row, active, mass, source)) == mass
  {
    var sent, shares := Outflow(row, active, mass, source), Shares(EdgeWeights(row), mass, total);
    forall t | t in active
      ensures t in row ==> sent(t) == shares(t)
      ensures t !in row ==> sent(t) == 0.0
    {
    }
    SumSupport(active, row.Keys, sent);
    SumSame(row.Keys, sent, shares);
    ShareSum(row.Keys, EdgeWeights(row), mass, total);
  }

  /** With every edge target active, a node's mass is passed on in full. */
  lemma OutflowIsWhole(row: Row, active: set<NodeId>, mass: real, source: NodeId)
    requires row.Keys <= active && source in active
    ensures Sum(active, Outflow(row, active, mass, source)) == mass
  {
    if RowTotal(row) <= 0.0 {
      DanglingOutflow(row, active, mass, source);
    } else {
      SharedOutflow(row, active, mass, source, RowTotal(row));
    }
  }

  lemma ShareNonNegative(mass: real, weight: real, total: real)
    requires mass >= 0.0 && weight >= 0.0 && total > 0.0
    ensures Share(mass, weight, total) >= 0.0
  {
    var product := mass * weight;
    assert product >= 0.0 && product / total >= 0.0;
  }

  lemma SentNonNegative(row: Row, active: set<NodeId>, mass: real, source: NodeId, target: NodeId)
    requires mass >= 0.0
    ensures Sent(row, active, mass, source, target) >= 0.0
  {
    if RowTotal(row) > 0.0 && target in row && target in active {
      ShareNonNegative(mass, Clipped(row[target]), RowTotal(row));
    }
  }

  /** What the listed sources together send to each target. */
  ghost function Arrivals(graph: Graph, active: set<NodeId>, keep: real, rank: Row,
                          sources: set<NodeId>): NodeId -> real
  {
    (t: NodeId) => Sum(sources, Inflow(graph, active, keep, rank, t))
  }

  lemma ArrivalsPick(graph: Graph, active: set<NodeId>, keep: real, rank: Row, sources: set<NodeId>, s: NodeId)
    requires s in sources
    ensures Sum(active, Arrivals(graph, active, keep, rank, sources))
         == Sum(active, Outflow(RowOf(graph, s), active, Times(keep, Get(rank, s)), s))
          + Sum(active, Arrivals(graph, active, keep, rank, sources - {s}))
  {
    var own := Outflow(RowOf(graph, s), active, Times(keep, Get(rank, s)), s);
    var all, rest := Arrivals(graph, active, keep, rank, sources), Arrivals(graph, active, keep, rank, sources - {s});
    forall t | t in active
      ensures all(t) == own(t) + rest(t)
    {
      SumPick(sources, Inflow(graph, active, keep, rank, t), s);
    }
    SumAdded(active, own, rest, all);
  }

  /** Graph closure lets nothing leak: what arrives is what the sources had. */
  lemma {:induction false} NothingLeaks(graph: Graph, active: set<NodeId>, keep: real, rank: Row, sources: set<NodeId>)
    requires GraphOk(active, graph) && sources <= active
    ensures Sum(active, Arrivals(graph, active, keep, rank, sources)) == Sum(sources, Scaled(Values(rank), keep))
    decreases sources
  {
    if sources == {} {
      SumSupport(active, {}, Arrivals(graph, active, keep, rank, {}));
    } else {
      var s :| s in sources;
      ArrivalsPick(graph, active, keep, rank, sources, s);
      assert RowOk(active, s, graph[s]);
      OutflowIsWhole(RowOf(graph, s), active, Times(keep, Get(rank, s)), s);
      NothingLeaks(graph, active, keep, rank, sources - {s});
      SumPick(sources, Scaled(Values(rank), keep), s);
    }
  }

  lemma NextTotal(graph: Graph, active: set<NodeId>, alpha: real, keep: real, restart: Row, rank: Row, next: Row)
    requires GraphOk(active, graph) && IsNext(graph, active, alpha, keep, restart, rank, next)
    ensures Sum(active, Values(next))
      == Times(alpha, Sum(active, Values(restart))) + Times(keep, Sum(active, Values(rank)))
  {
    var restarts, arrivals := Scaled(Values(restart), alpha), Arrivals(graph, active, keep, rank, active);
    forall t | t in active
      ensures Values(next)(t) == restarts(t) + arrivals(t)
    {
    }
    SumAdded(active, restarts, arrivals, Values(next));
    ScaledSum(active, Values(restart), alpha);
    NothingLeaks(graph, active, keep, rank, active);
    ScaledSum(active, Values(rank), keep);
  }

  /** One iteration keeps a probability distribution. */
  lemma NextIsDistribution(graph: Graph, active: set<NodeId>, alpha: real, keep: real, restart: Row, rank: Row,
                           next: Row)
    requires GraphOk(active, graph) && alpha >= 0.0 && keep >= 0.0 && alpha + keep == 1.0
    requires Distribution(active, restart) && Distribution(active, rank)
    requires IsNext(graph, active, alpha, keep, restart, rank, next)
    ensures Distribution(active, next)
  {
    hide GraphOk, NextAt;
    NextTotal(graph, active, alpha, keep, restart, rank, next);
    forall t | t in active
      ensures next[t] >= 0.0
    {
      NextNonNegative(graph, active, alpha, keep, restart, rank, t);
    }
  }

  lemma NextNonNegative(graph: Graph, active: set<NodeId>, alpha: real, keep: real, restart: Row, rank: Row, t: NodeId)
    requires alpha >= 0.0 && keep >= 0.0
    requires forall id | id in restart :: restart[id] >= 0.0
    requires forall id | id in rank :: rank[id] >= 0.0
    ensures NextAt(graph, active, alpha, keep, restart, rank, t) >= 0.0
  {
    var inflow := Inflow(graph, active, keep, rank, t);
    forall s | s in active
      ensures inflow(s) >= 0.0
    {
      MassNonNegative(keep, Get(rank, s));
      SentNonNegative(RowOf(graph, s), active, Times(keep, Get(rank, s)), s, t);
    }
    SumNonNegative(active, inflow);
    MassNonNegative(alpha, Get(restart, t));
  }

  lemma MassNonNegative(a: real, b: real)
    requires a >= 0.0 && b >= 0.0
    ensures Times(a, b) >= 0.0
  {
  }

  // ----- Where the iteration starts -----

  lemma {:induction false} ConstantSum(keys: set<NodeId>, f: NodeId -> real, c: real)
    requires forall k | k in keys :: f(k) == c
    ensures Sum(keys, f) == Times(|keys| as real, c)
    decreases keys
  {
    if keys != {} {
      var k :| k in keys;
      SumPick(keys, f, k);
      ConstantSum(keys - {k}, f, c);
      assert |keys| == |keys - {k}| + 1;
      CountUp(|keys - {k}|, c);
    }
  }

  lemma CountUp(n: nat, c: real)
    ensures Times((n + 1) as real, c) == Times(n as real, c) + c
  {
    assert (n + 1) as real == n as real + 1.0;
  }

  /** Seed weights normalised, or the uniform distribution when they carry none. */
  ghost function Restart(active: set<NodeId>, seeds: Row): Row
    requires active != {}
  {
    var total := Sum(seeds.Keys, Values(seeds));
    if total > 0.0 then map id | id in seeds :: Share(1.0, seeds[id], total)
    else map id | id in active :: 1.0 / |active| as real
  }

  lemma RestartIsDistribution(active: set<NodeId>, seeds: Row)
    requires active != {} && seeds.Keys <= active && forall id | id in seeds :: seeds[id] >= 0.0
    ensures Distribution(active, Restart(active, seeds))
  {
    var restart, total := Restart(active, seeds), Sum(seeds.Keys, Values(seeds));
    if total > 0.0 {
      SumSupport(active, seeds.Keys, Values(restart));
      SumSame(seeds.Keys, Values(restart), Shares(Values(seeds), 1.0, total));
      ShareSum(seeds.Keys, Values(seeds), 1.0, total);
      forall id | id in restart
        ensures restart[id] >= 0.0
      {
        ShareNonNegative(1.0, seeds[id], total);
      }
    } else {
      var c := 1.0 / |active| as real;
      assert |active| as real > 0.0;
      ConstantSum(active, Values(restart), c);
      Reassociate(1.0, 0.0, |active| as real, c);
    }
  }

  ghost function Advance(graph: Graph, active: set<NodeId>, alpha: real, keep: real, restart: Row,
                         rank: Row): (next: Row)
    ensures IsNext(graph, active, alpha, keep, restart, rank, next)
  {
    map t | t in active :: NextAt(graph, active, alpha, keep, restart, rank, t)
  }

  /** The rank after `n` iterations. */
  ghost function Iterate(graph: Graph, active: set<NodeId>, alpha: real, keep: real, restart: Row, n: nat): Row {
    if n == 0 then restart
    else Advance(graph, active, alpha, keep, restart, Iterate(graph, active, alpha, keep, restart, n - 1))
  }

  lemma AdvanceIsDistribution(graph: Graph, active: set<NodeId>, alpha: real, keep: real, restart: Row, rank: Row)
    requires GraphOk(active, graph) && alpha >= 0.0 && keep >= 0.0 && alpha + keep == 1.0
    requires Distribution(active, restart) && Distribution(active, rank)
    ensures Distribution(active, Advance(graph, active, alpha, keep, restart, rank))
  {
    NextIsDistribution(graph, active, alpha, keep, restart, rank, Advance(graph, active, alpha, keep, restart, rank));
  }

  lemma IterateStep(graph: Graph, active: set<NodeId>, alpha: real, keep: real, restart: Row, n: nat, rank: Row)
    requires GraphOk(active, graph) && alpha >= 0.0 && keep >= 0.0 && alpha + keep == 1.0
      && Distribution(active, restart)
    requires n > 0 && rank == Iterate(graph, active, alpha, keep, restart, n - 1) && Distribution(active, rank)
    ensures Distribution(active, Iterate(graph, active, alpha, keep, restart, n))
  {
    AdvanceIsDistribution(graph, active, alpha, keep, restart, rank);
  }

  /** Every iterate is a probability distribution over the active nodes. */
  lemma {:induction false} IterateIsDistribution(graph: Graph, active: set<NodeId>, alpha: real, keep: real,
                                                 restart: Row, n: nat)
    requires GraphOk(active, graph) && alpha >= 0.0 && keep >= 0.0 && alpha + keep == 1.0
      && Distribution(active, restart)
    ensures Distribution(active, Iterate(graph, active, alpha, keep, restart, n))
  {
    var rank := restart;
    for i := 0 to n
      invariant rank == Iterate(graph, active, alpha, keep, restart, i) && Distribution(active, rank)
    {
      IterateStep(graph, active, alpha, keep, restart, i + 1, rank);
      rank := Iterate(graph, active, alpha, keep, restart, i + 1);
    }
  }

  // ----- The loops -----

  method SumOf(row: Row, keys: set<NodeId>, ghost f: NodeId -> real, positive: bool) returns (total: real)
    requires forall id | id in keys :: f(id) == if positive then Clipped(Get(row, id)) else Get(row, id)
    ensures total == Sum(keys, f)
  {
    total := 0.0;
    var todo := keys;
    ghost var done := {};
    while todo != {}
      invariant done !! todo && done + todo == keys
      invariant total == Sum(done, f)
      decreases |todo|
    {
      var id :| id in todo;
      SumInsert(done, f, id);
      total := total + if positive then Clipped(Get(row, id)) else Get(row, id);
      todo, done := todo - {id}, done + {id};
    }
    assert done == keys;
  }

  /** Scatter one source's mass along its row. */
  method Spread(next: Row, row: Row, active: set<NodeId>, mass: real, source: NodeId) returns (after: Row)
    requires next.Keys == active && source in active
    ensures after.Keys == active
    ensures forall t | t in active :: after[t] == next[t] + Sent(row, active, mass, source, t)
  {
    var total := SumOf(row, row.Keys, EdgeWeights(row), true);
    after := next;
    if total <= 0.0 {
      after := after[source := after[source] + mass];
    } else {
      var todo := row.Keys;
      while todo != {}
        invariant todo <= row.Keys && after.Keys == active
        invariant forall t | t in active ::
          after[t] == next[t] + (if t in todo then 0.0 else Sent(row, active, mass, source, t))
        decreases |todo|
      {
        var target :| target in todo;
        if target in active {
          after := after[target := after[target] + Share(mass, Clipped(row[target]), total)];
        }
        todo := todo - {target};
      }
    }
  }

  /** The next rank once the sources in `done` have been scattered. */
  ghost predicate Gathered(graph: Graph, active: set<NodeId>, alpha: real, keep: real, restart: Row, rank: Row,
                           done: set<NodeId>, next: Row)
  {
    && next.Keys == active
    && forall t {:trigger Inflow(graph, active, keep, rank, t)} | t in active ::
         next[t] == Times(alpha, Get(restart, t)) + Sum(done, Inflow(graph, active, keep, rank, t))
  }

  lemma GatherOne(graph: Graph, active: set<NodeId>, alpha: real, keep: real, restart: Row, rank: Row,
                  done: set<NodeId>, next: Row, source: NodeId, after: Row)
    requires Gathered(graph, active, alpha, keep, restart, rank, done, next) && source !in done
    requires after.Keys == active
    requires forall t | t in active ::
      after[t] == next[t] + Sent(RowOf(graph, source), active, Times(keep, Get(rank, source)), source, t)
    ensures Gathered(graph, active, alpha, keep, restart, rank, done + {source}, after)
  {
    forall t | t in active
      ensures after[t] == Times(alpha, Get(restart, t)) + Sum(done + {source}, Inflow(graph, active, keep, rank, t))
    {
      SumInsert(done, Inflow(graph, active, keep, rank, t), source);
    }
  }

  lemma AllGathered(graph: Graph, active: set<NodeId>, alpha: real, keep: real, restart: Row, rank: Row, next: Row)
    requires Gathered(graph, active, alpha, keep, restart, rank, active, next)
    ensures next == Advance(graph, active, alpha, keep, restart, rank)
  {
    forall t | t in active
      ensures next[t] == NextAt(graph, active, alpha, keep, restart, rank, t)
    {
      assert Sum(active, Inflow(graph, active, keep, rank, t)) == Sum(active, Inflow(graph, active, keep, rank, t));
    }
  }

  method Iteration(graph: Graph, active: set<NodeId>, alpha: real, keep: real, restart: Row, rank: Row)
    returns (next: Row)
    ensures next == Advance(graph, active, alpha, keep, restart, rank)
  {
    next := map t | t in active :: Times(alpha, Get(restart, t));
    var todo := active;
    ghost var done := {};
    while todo != {}
      invariant done !! todo && done + todo == active
      invariant Gathered(graph, active, alpha, keep, restart, rank, done, next)
      decreases |todo|
    {
      var source :| source in todo;
      ghost var before := next;
      next := Spread(next, RowOf(graph, source), active, Times(keep, Get(rank, source)), source);
      GatherOne(graph, active, alpha, keep, restart, rank, done, before, source, next);
      todo, done := todo - {source}, done + {source};
    }
    assert done == active;
    AllGathered(graph, active, alpha, keep, restart, rank, next);
  }

  function Distance(next: Row, rank: Row, id: NodeId): real {
    Max(Get(next, id) - Get(rank, id), Get(rank, id) - Get(next, id))
  }

  ghost function Gap(next: Row, rank: Row): NodeId -> real { (id: NodeId) => Distance(next, rank, id) }

  lemma NothingSummed(f: NodeId -> real)
    ensures var none: set<NodeId> := {}; Sum(none, f) == 0.0
  {
  }

  /** How far one iterate is from another, summed over the active nodes. */
  method Change(active: set<NodeId>, next: Row, rank: Row) returns (change: real)
    ensures change == Sum(active, Gap(next, rank))
  {
    hide Distance, Sum;
    NothingSummed(Gap(next, rank));
    change := 0.0;
    var todo := active;
    ghost var done: set<NodeId> := {};
    while todo != {}
      invariant done !! todo && done + todo == active
      invariant change == Sum(done, Gap(next, rank))
      decreases |todo|
    {
      var id :| id in todo;
      SumInsert(done, Gap(next, rank), id);
      change := change + Distance(next, rank, id);
      todo, done := todo - {id}, done + {id};
    }
    assert done == active;
  }

  // ----- What these quantities are -----

  /** A node passes on its mass in proportion to the positive weights of its row,
      to active neighbours; without positive weight it keeps all of it. */
  lemma SentExactly(row: Row, active: set<NodeId>, mass: real, source: NodeId, target: NodeId)
    ensures var total := Sum(row.Keys, (y: NodeId) => if y in row && row[y] > 0.0 then row[y] else 0.0);
      var sent := Sent(row, active, mass, source, target);
      if total <= 0.0 then sent == (if source == target then mass else 0.0)
      else if target !in row || target !in active || row[target] <= 0.0 then sent == 0.0
      else sent * total == mass * row[target]
  {
    var weight := (y: NodeId) => if y in row && row[y] > 0.0 then row[y] else 0.0;
    SumSame(row.Keys, weight, EdgeWeights(row));
    if RowTotal(row) > 0.0 && target in row && target in active {
      Shared(mass, Clipped(row[target]), RowTotal(row));
    }
  }

  lemma Shared(mass: real, weight: real, total: real)
    requires total != 0.0
    ensures Share(mass, weight, total) * total == mass * weight
    ensures weight == 0.0 ==> Share(mass, weight, total) == 0.0
  {
  }

  /** A node's next rank is the restart's share and what every active node sends of the rest. */
  lemma NextExactly(graph: Graph, active: set<NodeId>, alpha: real, keep: real, restart: Row, rank: Row, target: NodeId)
    ensures NextAt(graph, active, alpha, keep, restart, rank, target) == alpha * Get(restart, target)
      + Sum(active, (s: NodeId) => Sent(RowOf(graph, s), active, keep * Get(rank, s), s, target))
  {
    hide Sent;
    SumSame(active, Inflow(graph, active, keep, rank, target),
            (s: NodeId) => Sent(RowOf(graph, s), active, keep * Get(rank, s), s, target));
  }

  /** The walk restarts at the seeds in proportion to their weights, or anywhere alike. */
  lemma RestartExactly(active: set<NodeId>, seeds: Row, id: NodeId)
    requires active != {}
    ensures var total := Sum(seeds.Keys, (x: NodeId) => Get(seeds, x)); var restart := Restart(active, seeds);
      if total > 0.0 then restart.Keys == seeds.Keys && (id in seeds ==> restart[id] * total == seeds[id])
      else restart.Keys == active && (id in active ==> restart[id] * (|active| as real) == 1.0)
  {
    SumSame(seeds.Keys, Values(seeds), (x: NodeId) => Get(seeds, x));
    var total := Sum(seeds.Keys, Values(seeds));
    if total > 0.0 && id in seeds {
      Shared(1.0, seeds[id], total);
    }
  }

  /** Two ranks are as far apart as their greater entry is from their lesser. */
  lemma DistanceExactly(next: Row, rank: Row, id: NodeId)
    ensures Get(next, id) >= Get(rank, id) ==> Get(next, id) == Get(rank, id) + Distance(next, rank, id)
    ensures Get(next, id) <= Get(rank, id) ==> Get(rank, id) == Get(next, id) + Distance(next, rank, id)
  {
  }

  /** The `k`th iteration changed the rank by less than a millionth. */
  ghost predicate Settled(graph: Graph, active: set<NodeId>, alpha: real, keep: real, restart: Row, k: nat)
    requires k >= 1
  {
    Sum(active, Gap(Iterate(graph, active, alpha, keep, restart, k),
                    Iterate(graph, active, alpha, keep, restart, k - 1))) < 0.000001
  }

  /** The iterate the loop stops at: the first settled one, or else the hundredth. */
  ghost predicate StopsAt(graph: Graph, active: set<NodeId>, alpha: real, keep: real, restart: Row, n: nat) {
    && 1 <= n <= 100
    && (n < 100 ==> Settled(graph, active, alpha, keep, restart, n))
    && forall k | 1 <= k < n :: !Settled(graph, active, alpha, keep, restart, k)
  }

  ghost predicate IsRank(graph: Graph, active: set<NodeId>, alpha: real, keep: real, restart: Row, rank: Row) {
    exists n: nat :: StopsAt(graph, active, alpha, keep, restart, n)
      && rank == Iterate(graph, active, alpha, keep, restart, n)
  }

  lemma StopsOnce(graph: Graph, active: set<NodeId>, alpha: real, keep: real, restart: Row, m: nat, n: nat)
    requires StopsAt(graph, active, alpha, keep, restart, m) && StopsAt(graph, active, alpha, keep, restart, n)
    ensures m == n
  {
    hide Settled;
  }

  /** So the rank is determined by the graph and the seeds. */
  lemma OneRank(graph: Graph, active: set<NodeId>, alpha: real, keep: real, restart: Row, p: Row, q: Row)
    requires IsRank(graph, active, alpha, keep, restart, p) && IsRank(graph, active, alpha, keep, restart, q)
    ensures p == q
  {
    hide StopsAt;
    var m: nat :| StopsAt(graph, active, alpha, keep, restart, m)
      && p == Iterate(graph, active, alpha, keep, restart, m);
    var n: nat :| StopsAt(graph, active, alpha, keep, restart, n)
      && q == Iterate(graph, active, alpha, keep, restart, n);
    StopsOnce(graph, active, alpha, keep, restart, m, n);
  }

  method StartingRank(active: set<NodeId>, seeds: Row) returns (restart: Row)
    requires active != {}
    ensures restart == Restart(active, seeds)
  {
    var total := SumOf(seeds, seeds.Keys, Values(seeds), false);
    if total > 0.0 {
      restart := map id | id in seeds :: Share(1.0, seeds[id], total);
    } else {
      restart := map id | id in active :: 1.0 / |active| as real;
    }
  }

  /** At most a hundred iterations, stopping early when little changes; `alpha` is
      the restart probability and `keep` the rest. */
  method PersonalizedPagerank(graph: Graph, active: set<NodeId>, alpha: real, keep: real, seeds: Row)
    returns (rank: Row)
    requires GraphOk(active, graph) && alpha >= 0.0 && keep >= 0.0 && alpha + keep == 1.0
    requires seeds.Keys <= active && forall id | id in seeds :: seeds[id] >= 0.0
    ensures active == {} ==> rank == map[]
    ensures active != {} ==> Distribution(active, rank)
    ensures active != {} ==> IsRank(graph, active, alpha, keep, Restart(active, seeds), rank)
  {
    hide StopsAt;
    if active == {} {
      rank := map[];
    } else {
      var restart := StartingRank(active, seeds);
      RestartIsDistribution(active, seeds);
      ghost var iterations;
      rank, iterations := PowerIteration(graph, active, alpha, keep, restart);
      IterateIsDistribution(graph, active, alpha, keep, restart, iterations);
    }
  }

  lemma SettledBelow(graph: Graph, active: set<NodeId>, alpha: real, keep: real, restart: Row, rank: Row, next: Row,
                     n: nat, change: real)
    requires rank == Iterate(graph, active, alpha, keep, restart, n)
      && next == Iterate(graph, active, alpha, keep, restart, n + 1)
    requires change == Sum(active, Gap(next, rank))
    ensures Settled(graph, active, alpha, keep, restart, n + 1) <==> change < 0.000001
  {
    hide Iterate, Sum;
  }

  /** One iteration, and whether it still moved the rank. */
  method Turn(graph: Graph, active: set<NodeId>, alpha: real, keep: real, restart: Row, rank: Row, ghost n: nat)
    returns (next: Row, small: bool)
    requires rank == Iterate(graph, active, alpha, keep, restart, n)
    ensures next == Iterate(graph, active, alpha, keep, restart, n + 1)
    ensures small <==> Settled(graph, active, alpha, keep, restart, n + 1)
  {
    hide Settled, Advance, Gap, Sum;
    next := Iteration(graph, active, alpha, keep, restart, rank);
    var change := Change(active, next, rank);
    small := change < 0.000001;
    SettledBelow(graph, active, alpha, keep, restart, rank, next, n, change);
  }

  lemma IterateStarts(graph: Graph, active: set<NodeId>, alpha: real, keep: real, restart: Row)
    ensures Iterate(graph, active, alpha, keep, restart, 0) == restart
  {
  }

  method PowerIteration(graph: Graph, active: set<NodeId>, alpha: real, keep: real, restart: Row)
    returns (rank: Row, ghost iterations: nat)
    ensures rank == Iterate(graph, active, alpha, keep, restart, iterations)
    ensures StopsAt(graph, active, alpha, keep, restart, iterations)
  {
    hide Settled, Iterate;
    IterateStarts(graph, active, alpha, keep, restart);
    rank := restart;
    var n, small := 0, false;
    while n < 100 && !small
      invariant n <= 100 && rank == Iterate(graph, active, alpha, keep, restart, n)
      invariant small ==> n >= 1 && Settled(graph, active, alpha, keep, restart, n)
      invariant !small && n >= 1 ==> !Settled(graph, active, alpha, keep, restart, n)
      invariant forall k | 1 <= k < n :: !Settled(graph, active, alpha, keep, restart, k)
      decreases 100 - n, !small
    {
      rank, small := Turn(graph, active, alpha, keep, restart, rank, n);
      n := n + 1;
    }
    iterations := n;
  }
}

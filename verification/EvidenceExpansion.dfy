/** The bounded expansion of a node's evidence: a breadth-first walk over the
    absorbed hierarchy, then a round-robin draw from the nodes it visited. */
module EvidenceExpansion {
  import opened Collections
  import opened Ranking
  import opened MemoryNodes
  import opened StoreInvariant

  type Book = Nodes

  function ChildrenOf(book: Book, id: NodeId): seq<NodeId> { if id in book then book[id].children else [] }

  /** Events a node shares with one of its recorded children. */
  function Inherited(book: Book, node: MemoryNode): set<EventId> {
    set c, e | c in node.children && c in book && e in book[c].eventIds :: e
  }

  /** The events not hidden, newest first. */
  function Newest(events: seq<EventId>, hidden: set<EventId>): (r: seq<EventId>)
    ensures forall e :: e in r <==> e in events && e !in hidden
  {
    if events == [] then []
    else
      var last := events[|events| - 1];
      assert events == events[..|events| - 1] + [last];
      (if last in hidden then [] else [last]) + Newest(events[..|events| - 1], hidden)
  }

  /** A node's own contribution: its events less its children's. */
  function Own(book: Book, id: NodeId): seq<EventId> {
    if id in book then Newest(book[id].eventIds, Inherited(book, book[id])) else []
  }

  /** `a` stands somewhere before `b`. */
  ghost predicate Leads(list: seq<EventId>, a: EventId, b: EventId) {
    exists i, j :: 0 <= i < j < |list| && list[i] == a && list[j] == b
  }

  lemma LeadsMore(list: seq<EventId>, first: EventId, a: EventId, b: EventId)
    ensures Leads(list, a, b) ==> Leads([first] + list, a, b)
    ensures b in list ==> Leads([first] + list, first, b)
  {
    var more := [first] + list;
    if i, j :| 0 <= i < j < |list| && list[i] == a && list[j] == b {
      assert more[i + 1] == a && more[j + 1] == b;
    }
    if j :| 0 <= j < |list| && list[j] == b {
      assert more[0] == first && more[j + 1] == b;
    }
  }

  lemma NewestUnfold(events: seq<EventId>, hidden: set<EventId>)
    requires events != []
    ensures var n := |events| - 1;
      Newest(events, hidden) ==
        if events[n] in hidden then Newest(events[..n], hidden) else [events[n]] + Newest(events[..n], hidden)
  {
    assert [] + Newest(events[..|events| - 1], hidden) == Newest(events[..|events| - 1], hidden);
  }

  lemma {:induction false} NewestFirst(events: seq<EventId>, hidden: set<EventId>, p: nat, q: nat)
    requires p < q < |events| && events[p] !in hidden && events[q] !in hidden
    ensures Leads(Newest(events, hidden), events[q], events[p])
    decreases |events|
  {
    hide Leads, Newest;
    var n := |events| - 1;
    var front := events[..n];
    NewestUnfold(events, hidden);
    assert front[p] == events[p];
    LeadsMore(Newest(front, hidden), events[n], events[q], events[p]);
    if q < n {
      NewestFirst(front, hidden, p, q);
    }
  }

  /** A node's own events are those no recorded child of it shares, the newer before the older. */
  lemma OwnExactly(book: Book, id: NodeId)
    ensures forall e :: e in Own(book, id) <==>
      && id in book && e in book[id].eventIds
      && forall c | c in book[id].children && c in book :: e !in book[c].eventIds
    ensures id in book ==> forall p, q | 0 <= p < q < |book[id].eventIds|
      && book[id].eventIds[p] in Own(book, id) && book[id].eventIds[q] in Own(book, id) ::
      Leads(Own(book, id), book[id].eventIds[q], book[id].eventIds[p])
  {
    if id in book {
      var events, hidden := book[id].eventIds, Inherited(book, book[id]);
      forall p, q | 0 <= p < q < |events| && events[p] in Own(book, id) && events[q] in Own(book, id)
        ensures Leads(Own(book, id), events[q], events[p])
      {
        NewestFirst(events, hidden, p, q);
      }
    }
  }

  // ----- Breadth first -----

  /** Everything at most `depth` child links below `root`. */
  ghost function Within(book: Book, root: NodeId, depth: nat): set<NodeId> {
    if depth == 0 then {root}
    else
      var near := Within(book, root, depth - 1);
      near + set id, c | id in near && c in ChildrenOf(book, id) :: c
  }

  lemma {:induction false} WithinGrows(book: Book, root: NodeId, less: nat, more: nat)
    requires less <= more
    ensures root in Within(book, root, less) && Within(book, root, less) <= Within(book, root, more)
    decreases more
  {
    if less < more {
      WithinGrows(book, root, less, more - 1);
    } else if less > 0 {
      WithinGrows(book, root, less - 1, less - 1);
    }
  }

  datatype Entry = Entry(id: NodeId, depth: nat)

  predicate Queued(pending: seq<Entry>, id: NodeId) { exists i :: 0 <= i < |pending| && pending[i].id == id }

  /** The first-in first-out queue of a breadth-first walk: distinct identifiers,
      none visited, in order of depth, all on the current level or the next. */
  ghost predicate QueueOk(pending: seq<Entry>, visited: set<NodeId>, level: nat) {
    && (forall i, j | 0 <= i < j < |pending| :: pending[i].id != pending[j].id && pending[i].depth <= pending[j].depth)
    && (forall i | 0 <= i < |pending| :: pending[i].id !in visited && level <= pending[i].depth <= level + 1)
  }

  ghost predicate InReach(book: Book, root: NodeId, maxDepth: nat, depths: map<NodeId, nat>, id: NodeId)
    requires id in depths
  {
    depths[id] <= maxDepth && id in Within(book, root, depths[id])
  }

  lemma ChildWithin(book: Book, root: NodeId, depth: nat, id: NodeId, child: NodeId)
    requires id in Within(book, root, depth) && child in ChildrenOf(book, id)
    ensures child in Within(book, root, depth + 1)
  {
  }

  /** `depths` gives the depth at which every identifier seen so far was queued. */
  ghost predicate SeenOk(book: Book, root: NodeId, maxDepth: nat, pending: seq<Entry>, visited: set<NodeId>,
                         depths: map<NodeId, nat>, level: nat)
  {
    && (forall id :: id in depths <==> id in visited || Queued(pending, id))
    && (forall i | 0 <= i < |pending| :: pending[i].id in depths && depths[pending[i].id] == pending[i].depth)
    && (forall id | id in visited :: depths[id] <= level)
    && (forall id {:trigger InReach(book, root, maxDepth, depths, id)} | id in depths ::
        InReach(book, root, maxDepth, depths, id))
    && root in depths && depths[root] == 0
  }

  /** Every child of an expanded node has been seen, one level lower at most. */
  ghost predicate Expanded(book: Book, depths: map<NodeId, nat>, id: NodeId) {
    id in depths && forall c | c in ChildrenOf(book, id) :: c in depths && depths[c] <= depths[id] + 1
  }

  ghost predicate AllExpanded(book: Book, maxDepth: nat, visited: set<NodeId>, depths: map<NodeId, nat>) {
    forall id | id in visited && id in depths && depths[id] < maxDepth :: Expanded(book, depths, id)
  }

  lemma {:induction false} EverythingWithinVisited(book: Book, root: NodeId, maxDepth: nat, visited: set<NodeId>,
                                                   depths: map<NodeId, nat>, d: nat)
    requires AllExpanded(book, maxDepth, visited, depths) && depths.Keys == visited && d <= maxDepth
    requires root in depths && depths[root] == 0
    ensures forall id | id in Within(book, root, d) :: id in depths && depths[id] <= d
    decreases d
  {
    if d > 0 {
      EverythingWithinVisited(book, root, maxDepth, visited, depths, d - 1);
      forall id, c | id in Within(book, root, d - 1) && c in ChildrenOf(book, id)
        ensures c in depths && depths[c] <= d
      {
        assert Expanded(book, depths, id);
      }
    }
  }

  /** A closed walk whose room suffices has visited exactly what lies within reach. */
  lemma WalkIsComplete(book: Book, root: NodeId, maxDepth: nat, visited: set<NodeId>, depths: map<NodeId, nat>,
                       level: nat)
    requires SeenOk(book, root, maxDepth, [], visited, depths, level) && AllExpanded(book, maxDepth, visited, depths)
    ensures visited == Within(book, root, maxDepth)
  {
    assert forall id :: id in depths <==> id in visited;
    EverythingWithinVisited(book, root, maxDepth, visited, depths, maxDepth);
    forall id | id in visited
      ensures id in Within(book, root, maxDepth)
    {
      assert InReach(book, root, maxDepth, depths, id);
      WithinGrows(book, root, depths[id], maxDepth);
    }
  }

  /** Seen identifiers all lie within reach. */
  lemma SeenIsWithin(book: Book, root: NodeId, maxDepth: nat, pending: seq<Entry>, visited: set<NodeId>,
                     depths: map<NodeId, nat>, level: nat)
    requires SeenOk(book, root, maxDepth, pending, visited, depths, level)
    ensures depths.Keys <= Within(book, root, maxDepth)
  {
    forall id | id in depths
      ensures id in Within(book, root, maxDepth)
    {
      assert InReach(book, root, maxDepth, depths, id);
      WithinGrows(book, root, depths[id], maxDepth);
    }
  }

  lemma QueuedAfter(pending: seq<Entry>, entry: Entry, x: NodeId)
    ensures Queued(pending + [entry], x) <==> Queued(pending, x) || x == entry.id
  {
    var next := pending + [entry];
    assert next[|pending|] == entry;
    if Queued(pending, x) {
      var i :| 0 <= i < |pending| && pending[i].id == x;
      assert next[i].id == x;
    }
  }

  lemma QueueGrows(pending: seq<Entry>, visited: set<NodeId>, level: nat, child: NodeId)
    requires QueueOk(pending, visited, level) && child !in visited && !Queued(pending, child)
    ensures QueueOk(pending + [Entry(child, level + 1)], visited, level)
  {
  }

  lemma QueueChild(book: Book, root: NodeId, maxDepth: nat, pending: seq<Entry>, visited: set<NodeId>,
                   depths: map<NodeId, nat>, level: nat, id: NodeId, child: NodeId)
    requires SeenOk(book, root, maxDepth, pending, visited, depths, level)
    requires id in visited && depths[id] == level < maxDepth && child in ChildrenOf(book, id) && child !in depths
    ensures SeenOk(book, root, maxDepth, pending + [Entry(child, level + 1)], visited,
                   depths[child := level + 1], level)
  {
    hide Within, Queued, ChildrenOf;
    var next, after := pending + [Entry(child, level + 1)], depths[child := level + 1];
    assert InReach(book, root, maxDepth, depths, id);
    ChildWithin(book, root, level, id, child);
    forall x
      ensures x in after <==> x in visited || Queued(next, x)
    {
      QueuedAfter(pending, Entry(child, level + 1), x);
    }
    forall x | x in after
      ensures InReach(book, root, maxDepth, after, x)
    {
      assert x != child ==> InReach(book, root, maxDepth, depths, x);
    }
    forall i | 0 <= i < |next|
      ensures next[i].id in after && after[next[i].id] == next[i].depth
    {
      assert i < |pending| ==> pending[i].id in depths;
    }
  }

  lemma PopHead(book: Book, root: NodeId, maxDepth: nat, pending: seq<Entry>, visited: set<NodeId>,
                depths: map<NodeId, nat>, level: nat)
    requires pending != [] && QueueOk(pending, visited, level)
      && SeenOk(book, root, maxDepth, pending, visited, depths, level)
    ensures QueueOk(pending[1..], visited + {pending[0].id}, pending[0].depth)
    ensures SeenOk(book, root, maxDepth, pending[1..], visited + {pending[0].id}, depths, pending[0].depth)
  {
    hide Within;
    var rest, grown := pending[1..], visited + {pending[0].id};
    forall x
      ensures x in depths <==> x in grown || Queued(rest, x)
    {
      if Queued(pending, x) && x != pending[0].id {
        var i :| 0 <= i < |pending| && pending[i].id == x;
        assert rest[i - 1].id == x;
      }
    }
  }

  lemma VisitedIsSeen(book: Book, root: NodeId, maxDepth: nat, pending: seq<Entry>, visited: set<NodeId>,
                      depths: map<NodeId, nat>, level: nat, x: NodeId)
    requires SeenOk(book, root, maxDepth, pending, visited, depths, level)
    ensures x in depths <==> x in visited || Queued(pending, x)
  {
    hide Within, Queued;
  }

  /** Queue the children of a node just visited while there is room. */
  method QueueChildren(book: Book, id: NodeId, depth: nat, queue: seq<Entry>, visited: set<NodeId>, maxNodes: nat,
                       ghost root: NodeId, ghost maxDepth: nat, ghost depths: map<NodeId, nat>)
    returns (pending: seq<Entry>, ghost seen: map<NodeId, nat>)
    requires QueueOk(queue, visited, depth) && SeenOk(book, root, maxDepth, queue, visited, depths, depth)
    requires id in visited && depths[id] == depth < maxDepth
    requires |depths| == |queue| + |visited| <= maxNodes
    ensures QueueOk(pending, visited, depth) && SeenOk(book, root, maxDepth, pending, visited, seen, depth)
    ensures |seen| == |pending| + |visited| <= maxNodes
    ensures forall x | x in depths :: x in seen && seen[x] == depths[x]
    ensures (forall c | c in ChildrenOf(book, id) :: c in seen) || |seen| >= maxNodes
  {
    hide QueueOk, SeenOk, Queued;
    VisitedIsSeen(book, root, maxDepth, queue, visited, depths, depth, id);
    pending, seen := queue, depths;
    var children := ChildrenOf(book, id);
    var i := 0;
    while i < |children| && |pending| + |visited| < maxNodes
      invariant i <= |children|
      invariant QueueOk(pending, visited, depth) && SeenOk(book, root, maxDepth, pending, visited, seen, depth)
      invariant |seen| == |pending| + |visited| <= maxNodes
      invariant forall x | x in depths :: x in seen && seen[x] == depths[x]
      invariant forall j | 0 <= j < i :: children[j] in seen
    {
      var child := children[i];
      VisitedIsSeen(book, root, maxDepth, pending, visited, seen, depth, child);
      if child !in visited && !Queued(pending, child) {
        QueueGrows(pending, visited, depth, child);
        QueueChild(book, root, maxDepth, pending, visited, seen, depth, id, child);
        pending := pending + [Entry(child, depth + 1)];
        seen := seen[child := depth + 1];
      }
      i := i + 1;
    }
  }

  /** A node whose children have all been seen is expanded. */
  lemma ChildrenSeen(book: Book, root: NodeId, maxDepth: nat, pending: seq<Entry>, visited: set<NodeId>,
                     depths: map<NodeId, nat>, level: nat, id: NodeId)
    requires QueueOk(pending, visited, level) && SeenOk(book, root, maxDepth, pending, visited, depths, level)
    requires id in visited && depths[id] == level
    requires forall c | c in ChildrenOf(book, id) :: c in depths
    ensures Expanded(book, depths, id)
  {
    hide Within, ChildrenOf;
    forall c | c in ChildrenOf(book, id)
      ensures c in depths && depths[c] <= level + 1
    {
      SeenIsShallow(book, root, maxDepth, pending, visited, depths, level, c);
    }
  }

  lemma SeenIsShallow(book: Book, root: NodeId, maxDepth: nat, pending: seq<Entry>, visited: set<NodeId>,
                      depths: map<NodeId, nat>, level: nat, id: NodeId)
    requires QueueOk(pending, visited, level) && SeenOk(book, root, maxDepth, pending, visited, depths, level)
    requires id in depths
    ensures depths[id] <= level + 1
  {
    hide Within;
    if id !in visited {
      var i :| 0 <= i < |pending| && pending[i].id == id;
      assert depths[pending[i].id] == pending[i].depth;
    }
  }

  lemma StillExpanded(book: Book, maxDepth: nat, visited: set<NodeId>, depths: map<NodeId, nat>, id: NodeId,
                      seen: map<NodeId, nat>)
    requires AllExpanded(book, maxDepth, visited, depths) && visited <= depths.Keys
    requires forall x | x in depths :: x in seen && seen[x] == depths[x]
    requires id in seen && seen[id] < maxDepth ==> Expanded(book, seen, id)
    ensures AllExpanded(book, maxDepth, visited + {id}, seen)
  {
    forall x | x in visited + {id} && x in seen && seen[x] < maxDepth
      ensures Expanded(book, seen, x)
    {
      if x != id {
        assert Expanded(book, depths, x);
      }
    }
  }

  /** The nodes a walk visited, in order, with what each contributes itself. */
  ghost predicate Gathered(book: Book, visited: set<NodeId>, order: seq<NodeId>, sources: seq<seq<EventId>>) {
    && Distinct(order) && |sources| == |order|
    && (forall id :: id in order <==> id in visited && id in book)
    && (forall i | 0 <= i < |order| :: sources[i] == Own(book, order[i]))
  }

  lemma GatherOne(book: Book, visited: set<NodeId>, order: seq<NodeId>, sources: seq<seq<EventId>>, id: NodeId)
    requires Gathered(book, visited, order, sources) && id !in visited
    ensures id in book ==> Gathered(book, visited + {id}, order + [id], sources + [Own(book, id)])
    ensures id !in book ==> Gathered(book, visited + {id}, order, sources)
  {
    hide Own;
    if id in book {
      forall x
        ensures x in order + [id] <==> x in visited + {id} && x in book
      {
      }
    }
  }

  ghost predicate WalkOk(book: Book, root: NodeId, maxDepth: nat, maxNodes: nat, pending: seq<Entry>,
                         visited: set<NodeId>,
                         depths: map<NodeId, nat>, level: nat)
  {
    && QueueOk(pending, visited, level) && SeenOk(book, root, maxDepth, pending, visited, depths, level)
    && |depths| == |pending| + |visited| <= maxNodes
    && (|depths| < maxNodes ==> AllExpanded(book, maxDepth, visited, depths))
  }

  lemma WalkStarts(book: Book, root: NodeId, maxDepth: nat, maxNodes: nat)
    requires maxNodes > 0
    ensures WalkOk(book, root, maxDepth, maxNodes, [Entry(root, 0)], {}, map[root := 0], 0)
  {
    assert [Entry(root, 0)][0].id == root;
    assert InReach(book, root, maxDepth, map[root := 0], root);
  }

  lemma NoFewerSeen(depths: map<NodeId, nat>, seen: map<NodeId, nat>)
    requires forall x | x in depths :: x in seen
    ensures |depths| <= |seen|
  {
    assert |depths| == |depths.Keys| && |seen| == |seen.Keys|;
    SubsetSize(depths.Keys, seen.Keys);
  }

  /** Visit the head of the queue and queue its children. */
  method VisitHead(book: Book, queue: seq<Entry>, visited: set<NodeId>, maxDepth: nat, maxNodes: nat,
                   ghost root: NodeId, ghost depths: map<NodeId, nat>, ghost level: nat)
    returns (pending: seq<Entry>, ghost seen: map<NodeId, nat>)
    requires queue != [] && WalkOk(book, root, maxDepth, maxNodes, queue, visited, depths, level)
    ensures queue[0].id !in visited
    ensures WalkOk(book, root, maxDepth, maxNodes, pending, visited + {queue[0].id}, seen, queue[0].depth)
  {
    hide Within, Expanded, ChildrenOf, Queued;
    var id, depth := queue[0].id, queue[0].depth;
    pending, seen := queue[1..], depths;
    PopHead(book, root, maxDepth, queue, visited, depths, level);
    VisitedIsSeen(book, root, maxDepth, queue, visited, depths, level, id);
    assert depths[id] == depth;
    if depth < maxDepth {
      pending, seen := QueueChildren(book, id, depth, pending, visited + {id}, maxNodes, root, maxDepth, depths);
      if |seen| < maxNodes {
        ChildrenSeen(book, root, maxDepth, pending, visited + {id}, seen, depth, id);
      }
    }
    if |seen| < maxNodes {
      NoFewerSeen(depths, seen);
      StillExpanded(book, maxDepth, visited, depths, id, seen);
    }
  }

  /** Walk from `root`. However the links run the walk ends, and visits everything
      within reach or, if that is too much, exactly `maxNodes` identifiers of it. */
  method Walk(book: Book, root: NodeId, maxDepth: nat, maxNodes: nat)
    returns (sources: seq<seq<EventId>>, ghost order: seq<NodeId>, ghost reached: set<NodeId>)
    ensures Gathered(book, reached, order, sources)
    ensures |reached| <= maxNodes && reached <= Within(book, root, maxDepth)
    ensures reached == Within(book, root, maxDepth) || |reached| == maxNodes
    ensures maxNodes > 0 && root in book ==> order != [] && order[0] == root
  {
    hide QueueOk, SeenOk, Within, AllExpanded, Own;
    sources, order, reached := [], [], {};
    if maxNodes > 0 {
      var pending, visited := [Entry(root, 0)], {};
      ghost var depths: map<NodeId, nat>, level := map[root := 0], 0;
      WalkStarts(book, root, maxDepth, maxNodes);
      while |visited| < maxNodes && pending != []
        invariant WalkOk(book, root, maxDepth, maxNodes, pending, visited, depths, level)
        invariant Gathered(book, visited, order, sources)
        invariant visited == {} ==> pending == [Entry(root, 0)] && order == []
        invariant visited != {} && root in book ==> order != [] && order[0] == root
        decreases maxNodes - |visited|
      {
        var id := pending[0].id;
        ghost var depth := pending[0].depth;
        pending, depths := VisitHead(book, pending, visited, maxDepth, maxNodes, root, depths, level);
        level := depth;
        GatherOne(book, visited, order, sources, id);
        visited := visited + {id};
        if id in book {
          sources, order := sources + [Own(book, id)], order + [id];
        }
      }
      reached := visited;
      WalkEnds(book, root, maxDepth, maxNodes, visited, depths, level);
    } else {
      WithinGrows(book, root, 0, maxDepth);
    }
  }

  lemma WalkEnds(book: Book, root: NodeId, maxDepth: nat, maxNodes: nat, visited: set<NodeId>,
                 depths: map<NodeId, nat>, level: nat)
    requires WalkOk(book, root, maxDepth, maxNodes, [], visited, depths, level)
    ensures visited <= Within(book, root, maxDepth)
    ensures visited == Within(book, root, maxDepth) || |visited| == maxNodes
  {
    hide Within, AllExpanded, QueueOk;
    SeenIsWithin(book, root, maxDepth, [], visited, depths, level);
    assert visited <= depths.Keys;
    if |depths| < maxNodes {
      WalkIsComplete(book, root, maxDepth, visited, depths, level);
    }
  }

  // ----- Round robin -----

  function Heads(sources: seq<seq<EventId>>): seq<EventId> {
    if sources == [] then []
    else (if sources[0] == [] then [] else [sources[0][0]]) + Heads(sources[1..])
  }

  function Tail(source: seq<EventId>): seq<EventId> { if source == [] then [] else source[1..] }

  function Tails(sources: seq<seq<EventId>>): (r: seq<seq<EventId>>)
    ensures |r| == |sources|
  {
    seq(|sources|, i requires 0 <= i < |sources| => Tail(sources[i]))
  }

  function Length(sources: seq<seq<EventId>>): nat {
    if sources == [] then 0 else |sources[0]| + Length(sources[1..])
  }

  lemma {:induction false} RoundShrinks(sources: seq<seq<EventId>>)
    ensures Length(Tails(sources)) + |Heads(sources)| == Length(sources)
    decreases |sources|
  {
    if sources != [] {
      RoundShrinks(sources[1..]);
      assert Tails(sources)[1..] == Tails(sources[1..]);
    }
  }

  /** Every source's first event, then every source's second, and so on. */
  function Interleaved(sources: seq<seq<EventId>>): seq<EventId>
    decreases Length(sources)
  {
    RoundShrinks(sources);
    if Heads(sources) == [] then [] else Heads(sources) + Interleaved(Tails(sources))
  }

  /** What a round has left when `i` sources have had their turn. */
  ghost function Remaining(start: seq<seq<EventId>>, i: nat): seq<EventId>
    requires i <= |start|
  {
    Heads(start[i..]) + Interleaved(Tails(start))
  }

  lemma {:induction false} AppendInTurn(xs: seq<EventId>, ys: seq<EventId>, zs: seq<EventId>)
    ensures AppendNew(xs, ys + zs) == AppendNew(AppendNew(xs, ys), zs)
    decreases |ys|
  {
    if ys == [] {
      assert ys + zs == zs;
    } else {
      assert (ys + zs)[1..] == ys[1..] + zs;
      AppendInTurn(if ys[0] in xs then xs else xs + [ys[0]], ys[1..], zs);
    }
  }

  lemma {:induction false} AppendKeepsPrefix(xs: seq<EventId>, ys: seq<EventId>)
    ensures xs <= AppendNew(xs, ys)
    decreases |ys|
  {
    if ys != [] {
      AppendKeepsPrefix(if ys[0] in xs then xs else xs + [ys[0]], ys[1..]);
    }
  }

  lemma TurnTaken(start: seq<seq<EventId>>, i: nat)
    requires i < |start|
    ensures Remaining(start, i) == (if start[i] == [] then [] else [start[i][0]]) + Remaining(start, i + 1)
  {
    assert start[i..][1..] == start[i + 1..];
  }

  /** Sources part way through a round. */
  ghost predicate MidRound(start: seq<seq<EventId>>, sources: seq<seq<EventId>>, i: nat) {
    && |sources| == |start| && i <= |start|
    && (forall j | 0 <= j < i :: sources[j] == Tail(start[j]))
    && (forall j | i <= j < |start| :: sources[j] == start[j])
  }

  /** One round: each source in turn offers its next event. `all` is the whole
      list that would be drawn without a limit. */
  method DrawRound(before: seq<seq<EventId>>, drawn: seq<EventId>, maxEvents: nat, ghost all: seq<EventId>)
    returns (sources: seq<seq<EventId>>, result: seq<EventId>, advanced: bool)
    requires Distinct(drawn) && |drawn| < maxEvents
    requires AppendNew(drawn, Interleaved(before)) == all
    ensures Distinct(result) && |result| <= maxEvents && drawn <= result <= all
    ensures |result| < maxEvents ==> sources == Tails(before) && AppendNew(result, Interleaved(sources)) == all
    ensures |result| < maxEvents ==> (advanced <==> Heads(before) != [])
  {
    hide AppendNew, Interleaved, Remaining;
    sources, result, advanced := before, drawn, false;
    RoundOpens(before);
    var i := 0;
    while i < |sources| && |result| < maxEvents
      invariant MidRound(before, sources, i)
      invariant Distinct(result) && |result| <= maxEvents && drawn <= result
      invariant AppendNew(result, Remaining(before, i)) == all
      invariant advanced <==> exists j | 0 <= j < i :: before[j] != []
    {
      TurnTaken(before, i);
      if sources[i] != [] {
        advanced := true;
        var event := sources[i][0];
        AppendInTurn(result, [event], Remaining(before, i + 1));
        AppendOne(result, event);
        sources := sources[i := Tail(sources[i])];
        if event !in result {
          result := result + [event];
        }
      } else {
        assert [] + Remaining(before, i + 1) == Remaining(before, i + 1);
      }
      i := i + 1;
    }
    AppendKeepsPrefix(result, Remaining(before, i));
    if |result| < maxEvents {
      RoundCloses(before, sources);
    }
  }

  lemma AppendOne(xs: seq<EventId>, event: EventId)
    ensures AppendNew(xs, [event]) == if event in xs then xs else xs + [event]
  {
  }

  lemma RoundOpens(start: seq<seq<EventId>>)
    ensures Remaining(start, 0) == Interleaved(start)
  {
    assert start[0..] == start;
    if Heads(start) == [] {
      NoHeads(start);
      RoundShrinks(start);
      RoundShrinks(Tails(start));
    }
  }

  lemma {:induction false} NoHeads(start: seq<seq<EventId>>)
    ensures Heads(start) == [] <==> forall j | 0 <= j < |start| :: start[j] == []
    ensures Heads(start) == [] ==> Tails(start) == start
    decreases |start|
  {
    if start != [] {
      NoHeads(start[1..]);
      if Heads(start) == [] {
        forall j | 0 <= j < |start|
          ensures start[j] == []
        {
          assert j > 0 ==> start[1..][j - 1] == start[j];
        }
      }
      assert forall j | 0 <= j < |start[1..]| :: start[1..][j] == start[j + 1];
    }
  }

  lemma RoundCloses(start: seq<seq<EventId>>, sources: seq<seq<EventId>>)
    requires MidRound(start, sources, |start|)
    ensures sources == Tails(start) && Remaining(start, |start|) == Interleaved(sources)
    ensures Heads(start) != [] <==> exists j | 0 <= j < |start| :: start[j] != []
  {
    NoHeads(start);
    assert start[|start|..] == [];
    assert [] + Interleaved(sources) == Interleaved(sources);
  }

  /** Draw until every source is empty or the limit is reached: the result is
      the front of the interleaved list with repetitions dropped. */
  method Draw(from: seq<seq<EventId>>, maxEvents: nat) returns (result: seq<EventId>)
    ensures result == Take(AppendNew([], Interleaved(from)), maxEvents)
    ensures Distinct(result)
  {
    hide AppendNew, Interleaved, Heads;
    result := [];
    var sources, advanced := from, true;
    ghost var all := AppendNew([], Interleaved(from));
    AppendKeepsPrefix([], Interleaved(from));
    while |result| < maxEvents && advanced
      invariant Distinct(result) && |result| <= maxEvents && result <= all
      invariant |result| < maxEvents ==> AppendNew(result, Interleaved(sources)) == all
      invariant |result| < maxEvents && !advanced ==> result == all
      decreases maxEvents - |result|, Length(sources), advanced
    {
      ghost var before := sources;
      sources, result, advanced := DrawRound(sources, result, maxEvents, all);
      RoundShrinks(before);
      if |result| < maxEvents && !advanced {
        NothingDrawn(result, before);
      }
    }
  }

  lemma NothingDrawn(result: seq<EventId>, sources: seq<seq<EventId>>)
    requires Heads(sources) == []
    ensures AppendNew(result, Interleaved(Tails(sources))) == result
  {
    NoHeads(sources);
  }

  // ----- What the expansion returns -----

  lemma {:induction false} HeadsAndTails(sources: seq<seq<EventId>>, e: EventId)
    ensures (exists i | 0 <= i < |sources| :: e in sources[i])
       <==> e in Heads(sources) || exists i | 0 <= i < |sources| :: e in Tails(sources)[i]
    decreases |sources|
  {
    if sources != [] {
      var rest := sources[1..];
      HeadsAndTails(rest, e);
      assert forall i | 0 <= i < |rest| :: rest[i] == sources[i + 1] && Tails(rest)[i] == Tails(sources)[i + 1];
      assert e in sources[0] <==> (sources[0] != [] && e == sources[0][0]) || e in Tails(sources)[0];
      assert (exists i | 0 <= i < |sources| :: e in sources[i])
        <==> e in sources[0] || exists i | 0 <= i < |rest| :: e in rest[i];
      assert (exists i | 0 <= i < |sources| :: e in Tails(sources)[i])
        <==> e in Tails(sources)[0] || exists i | 0 <= i < |rest| :: e in Tails(rest)[i];
    }
  }

  lemma {:induction false} InterleavedHolds(sources: seq<seq<EventId>>, e: EventId)
    ensures e in Interleaved(sources) <==> exists i | 0 <= i < |sources| :: e in sources[i]
    decreases Length(sources)
  {
    RoundShrinks(sources);
    NoHeads(sources);
    if Heads(sources) != [] {
      HeadsAndTails(sources, e);
      InterleavedHolds(Tails(sources), e);
    }
  }

  /** The events that some node within reach contributes itself. */
  ghost function OwnWithin(book: Book, root: NodeId, depth: nat): set<EventId> {
    set id, e | id in Within(book, root, depth) && e in Own(book, id) :: e
  }

  lemma GatheredEvents(book: Book, visited: set<NodeId>, order: seq<NodeId>, sources: seq<seq<EventId>>, e: EventId)
    requires Gathered(book, visited, order, sources)
    ensures e in Interleaved(sources) <==> exists id | id in visited :: e in Own(book, id)
  {
    hide Interleaved;
    InterleavedHolds(sources, e);
    if id :| id in visited && e in Own(book, id) {
      assert id in order;
      var i :| 0 <= i < |order| && order[i] == id;
      assert e in sources[i];
    }
    if i :| 0 <= i < |sources| && e in sources[i] {
      assert order[i] in order;
    }
  }

  lemma {:induction false} HeadsListed(sources: seq<seq<EventId>>, i: nat)
    requires i < |sources| && sources[i] != []
    ensures sources[i][0] in Heads(sources)
    decreases |sources|
  {
    if i > 0 {
      HeadsListed(sources[1..], i - 1);
    }
  }

  lemma {:induction false} HeadsAreFew(sources: seq<seq<EventId>>)
    ensures |Heads(sources)| <= |sources|
    decreases |sources|
  {
    if sources != [] {
      HeadsAreFew(sources[1..]);
    }
  }

  lemma {:induction false} AppendGrows(xs: seq<EventId>, ys: seq<EventId>)
    ensures |AppendNew(xs, ys)| <= |xs| + |ys|
    decreases |ys|
  {
    if ys != [] {
      AppendGrows(if ys[0] in xs then xs else xs + [ys[0]], ys[1..]);
    }
  }

  /** Round robin is fair: with room for one event per visited node, every
      visited node's newest own event is returned. */
  lemma EverySourceHeard(sources: seq<seq<EventId>>, maxEvents: nat, i: nat)
    requires |sources| <= maxEvents && i < |sources| && sources[i] != []
    ensures sources[i][0] in Take(AppendNew([], Interleaved(sources)), maxEvents)
  {
    hide Heads, Tails;
    var heads, rest := Heads(sources), Interleaved(Tails(sources));
    HeadsListed(sources, i);
    HeadsAreFew(sources);
    AppendGrows([], heads);
    AppendNewIsUnion([], heads);
    AppendInTurn([], heads, rest);
    AppendKeepsPrefix(AppendNew([], heads), rest);
    assert sources[i][0] in ToSet(AppendNew([], heads));
    var all := AppendNew([], Interleaved(sources));
    assert AppendNew([], heads) <= all;
    var k :| 0 <= k < |AppendNew([], heads)| && AppendNew([], heads)[k] == sources[i][0];
    assert Take(all, maxEvents)[k] == all[k];
  }

  /** A draw with room for every distinct event returns them all. */
  lemma DrawsAll(all: seq<EventId>, maxEvents: nat, events: set<EventId>)
    requires forall e :: e in all <==> e in events
    ensures ToSet(Take(AppendNew([], all), maxEvents)) <= events
    ensures |events| <= maxEvents ==> ToSet(Take(AppendNew([], all), maxEvents)) == events
  {
    AppendNewIsUnion([], all);
    var listed := AppendNew([], all);
    assert ToSet(all) == events;
    assert ToSet(listed) == events;
    DistinctSize(listed);
    forall e | e in ToSet(Take(listed, maxEvents))
      ensures e in ToSet(listed)
    {
    }
  }

  /** `subtree_event_ids`. */
  method SubtreeEventIds(book: Book, root: NodeId, maxDepth: nat, maxNodes: nat, maxEvents: nat)
    returns (result: seq<EventId>, ghost order: seq<NodeId>)
    ensures Distinct(result) && |result| <= maxEvents
    ensures Distinct(order) && |order| <= maxNodes && ToSet(order) <= Within(book, root, maxDepth) * book.Keys
    ensures forall e | e in result :: exists id | id in order :: e in Own(book, id)
    ensures result == Take(AppendNew([], Interleaved(OwnLists(book, order))), maxEvents)
    ensures |order| <= maxEvents ==> forall id | id in order && Own(book, id) != [] :: Own(book, id)[0] in result
    ensures |Within(book, root, maxDepth)| <= maxNodes ==> ToSet(order) == Within(book, root, maxDepth) * book.Keys
    ensures |Within(book, root, maxDepth)| <= maxNodes && |OwnWithin(book, root, maxDepth)| <= maxEvents ==>
      ToSet(result) == OwnWithin(book, root, maxDepth)
  {
    hide Within, Own, Interleaved;
    ghost var reached;
    var sources;
    sources, order, reached := Walk(book, root, maxDepth, maxNodes);
    result := Draw(sources, maxEvents);
    DrawnFrom(book, reached, order, sources, maxEvents);
    OrderIsShort(order, reached, maxNodes);
    SubsetSize(reached, Within(book, root, maxDepth));
    assert sources == OwnLists(book, order);
    if reached == Within(book, root, maxDepth) {
      assert OwnOf(book, reached) == OwnWithin(book, root, maxDepth);
    }
    if |order| <= maxEvents {
      AllHeard(book, reached, order, sources, maxEvents);
    }
  }

  function OwnLists(book: Book, order: seq<NodeId>): seq<seq<EventId>> {
    seq(|order|, i requires 0 <= i < |order| => Own(book, order[i]))
  }

  ghost function OwnOf(book: Book, ids: set<NodeId>): set<EventId> {
    set id, e | id in ids && e in Own(book, id) :: e
  }

  lemma DrawnFrom(book: Book, reached: set<NodeId>, order: seq<NodeId>, sources: seq<seq<EventId>>, maxEvents: nat)
    requires Gathered(book, reached, order, sources)
    ensures ToSet(Take(AppendNew([], Interleaved(sources)), maxEvents)) <= OwnOf(book, reached)
    ensures |OwnOf(book, reached)| <= maxEvents ==>
      ToSet(Take(AppendNew([], Interleaved(sources)), maxEvents)) == OwnOf(book, reached)
    ensures forall e | e in Take(AppendNew([], Interleaved(sources)), maxEvents) :: exists id | id in order ::
      e in Own(book, id)
  {
    hide Own, Interleaved, AppendNew;
    forall e
      ensures e in Interleaved(sources) <==> e in OwnOf(book, reached)
    {
      GatheredEvents(book, reached, order, sources, e);
    }
    DrawsAll(Interleaved(sources), maxEvents, OwnOf(book, reached));
    var result := Take(AppendNew([], Interleaved(sources)), maxEvents);
    forall e | e in result
      ensures exists id | id in order :: e in Own(book, id)
    {
      assert e in ToSet(result);
      var id :| id in reached && e in Own(book, id);
      OnlyRecorded(book, id, e);
      assert id in order;
    }
  }

  lemma OnlyRecorded(book: Book, id: NodeId, e: EventId)
    requires e in Own(book, id)
    ensures id in book && e in book[id].eventIds
  {
  }

  lemma OrderIsShort(order: seq<NodeId>, reached: set<NodeId>, maxNodes: nat)
    requires Distinct(order) && |reached| <= maxNodes && forall id | id in order :: id in reached
    ensures |order| <= maxNodes
  {
    DistinctSize(order);
    SubsetSize(ToSet(order), reached);
  }

  lemma AllHeard(book: Book, reached: set<NodeId>, order: seq<NodeId>, sources: seq<seq<EventId>>, maxEvents: nat)
    requires Gathered(book, reached, order, sources) && |order| <= maxEvents
    ensures forall id | id in order && Own(book, id) != [] ::
      Own(book, id)[0] in Take(AppendNew([], Interleaved(sources)), maxEvents)
  {
    hide Own, Interleaved, AppendNew;
    forall id | id in order && Own(book, id) != []
      ensures Own(book, id)[0] in Take(AppendNew([], Interleaved(sources)), maxEvents)
    {
      var i :| 0 <= i < |order| && order[i] == id;
      EverySourceHeard(sources, maxEvents, i);
    }
  }

  // ----- Exactness on a well-formed hierarchy -----

  /** Active and absorbed records together, over a well-formed archive. */
  ghost predicate BookOk(book: Book, absorbed: Book) {
    && (forall id {:trigger FamilyOk(absorbed, book[id], id)} | id in book :: FamilyOk(absorbed, book[id], id))
    && (forall id | id in absorbed :: id in book && book[id] == absorbed[id])
  }

  lemma StoreBookOk(nodes: Book, absorbed: Book)
    requires HierarchyOk(nodes, absorbed) && nodes.Keys !! absorbed.Keys
    ensures BookOk(absorbed + nodes, absorbed)
  {
    var book := absorbed + nodes;
    forall id | id in book
      ensures FamilyOk(absorbed, book[id], id)
    {
      assert id in nodes ==> FamilyOk(absorbed, nodes[id], id);
      assert id in absorbed ==> FamilyOk(absorbed, absorbed[id], id);
    }
  }

  ghost function Family(book: Book, root: NodeId): set<NodeId>
    requires root in book
  {
    {root} + ToSet(book[root].children)
  }

  /** One level below the root is the whole subtree. */
  lemma {:induction false} WithinIsFamily(book: Book, absorbed: Book, root: NodeId, depth: nat)
    requires BookOk(book, absorbed) && root in book && depth >= 1
    ensures Within(book, root, depth) == Family(book, root)
    decreases depth
  {
    assert FamilyOk(absorbed, book[root], root);
    if depth > 1 {
      WithinIsFamily(book, absorbed, root, depth - 1);
      forall id, c | id in Family(book, root) && c in ChildrenOf(book, id)
        ensures c in Family(book, root)
      {
        assert id != root ==> id in absorbed && c in ToSet(absorbed[id].children);
        assert c in ToSet(book[root].children);
      }
    } else {
      var near := Within(book, root, 0);
      assert near == {root};
      forall c | c in ChildrenOf(book, root)
        ensures c in Within(book, root, depth)
      {
        assert root in near && c in ChildrenOf(book, root);
      }
      assert Within(book, root, depth) == near + set id, c | id in near && c in ChildrenOf(book, id) :: c;
    }
  }

  /** Every event of a node is some family member's own: follow it down to the
      last descendant that still holds it. */
  lemma {:induction false} EventIsOwned(book: Book, absorbed: Book, id: NodeId, e: EventId) returns (owner: NodeId)
    requires BookOk(book, absorbed) && id in book && e in book[id].eventIds
    ensures owner in Family(book, id) && e in Own(book, owner)
    decreases |ToSet(book[id].children)|
  {
    hide Newest;
    owner := id;
    if e in Inherited(book, book[id]) {
      var c :| c in book[id].children && c in book && e in book[c].eventIds;
      assert FamilyOk(absorbed, book[id], id) && FamilyOk(absorbed, book[c], c);
      assert c in ToSet(book[id].children) && c !in ToSet(book[c].children);
      SubsetSize(ToSet(book[c].children), ToSet(book[id].children));
      owner := EventIsOwned(book, absorbed, c, e);
    }
  }

  lemma FamilyEvents(book: Book, absorbed: Book, root: NodeId)
    requires BookOk(book, absorbed) && root in book
    ensures OwnOf(book, Family(book, root)) == ToSet(book[root].eventIds)
  {
    hide Own;
    assert FamilyOk(absorbed, book[root], root);
    forall e | e in book[root].eventIds
      ensures e in OwnOf(book, Family(book, root))
    {
      var owner := EventIsOwned(book, absorbed, root, e);
    }
    forall id, e | id in Family(book, root) && e in Own(book, id)
      ensures e in book[root].eventIds
    {
      OnlyRecorded(book, id, e);
      assert id != root ==> id in absorbed && e in ToSet(absorbed[id].eventIds);
      assert e in ToSet(book[root].eventIds);
    }
  }

  /** With at least one level, room for the root and its children, and room for
      its events, the expansion holds exactly the root's evidence. */
  lemma ExpansionIsExact(book: Book, absorbed: Book, root: NodeId, maxDepth: nat, maxNodes: nat, maxEvents: nat)
    requires BookOk(book, absorbed) && root in book && maxDepth >= 1
    requires maxNodes > |book[root].children| && maxEvents >= |book[root].eventIds|
    ensures |Within(book, root, maxDepth)| <= maxNodes
    ensures OwnWithin(book, root, maxDepth) == ToSet(book[root].eventIds)
    ensures |OwnWithin(book, root, maxDepth)| <= maxEvents
  {
    hide Own, Within;
    WithinIsFamily(book, absorbed, root, maxDepth);
    FamilyEvents(book, absorbed, root);
    assert OwnWithin(book, root, maxDepth) == OwnOf(book, Family(book, root));
    SetIsNoLarger(book[root].children);
    SetIsNoLarger(book[root].eventIds);
    assert |Family(book, root)| <= 1 + |ToSet(book[root].children)|;
  }

  lemma {:induction false} SetIsNoLarger<T>(xs: seq<T>)
    ensures |ToSet(xs)| <= |xs|
    decreases |xs|
  {
    if xs == [] {
      assert ToSet(xs) == {};
    } else {
      SetIsNoLarger(xs[1..]);
      assert ToSet(xs) == {xs[0]} + ToSet(xs[1..]);
    }
  }
}

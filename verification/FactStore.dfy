/** The fact store: claims are added once and for all, and the links are rebuilt
    by grouping, sorting and scanning neighbours. */
module FactStore {
  import opened Collections
  import opened Facts

  // ----- Sorting one slot's facts -----

  ghost predicate Ascending(claims: Claims, ids: seq<FactId>) {
    && (forall i | 0 <= i < |ids| :: ids[i] in claims)
    && (forall i, j | 0 <= i < j < |ids| :: Precedes(claims[ids[i]], claims[ids[j]]))
  }

  method Insert(claims: Claims, ids: seq<FactId>, id: FactId) returns (r: seq<FactId>)
    requires WellKeyed(claims) && Ascending(claims, ids) && id in claims && id !in ids
    ensures Ascending(claims, r) && ToSet(r) == ToSet(ids) + {id}
  {
    hide Precedes, Ascending, WellKeyed;
    ListedInClaims(claims, ids);
    var i := 0;
    while i < |ids| && Precedes(claims[ids[i]], claims[id])
      invariant 0 <= i <= |ids|
      invariant forall k | 0 <= k < i :: Precedes(claims[ids[k]], claims[id])
    {
      i := i + 1;
    }
    r := ids[..i] + [id] + ids[i..];
    LaterFollow(claims, ids, id, i);
    InsertedAscends(claims, ids, id, i);
    InsertedSet(ids, id, i);
  }

  lemma ListedInClaims(claims: Claims, ids: seq<FactId>)
    requires Ascending(claims, ids)
    ensures forall k | 0 <= k < |ids| :: ids[k] in claims
  {
  }

  /** Where the scan stops, `id` comes before all that is left. */
  lemma LaterFollow(claims: Claims, ids: seq<FactId>, id: FactId, i: nat)
    requires WellKeyed(claims) && Ascending(claims, ids) && id in claims && id !in ids && i <= |ids|
    requires forall k | 0 <= k < |ids| :: ids[k] in claims
    requires i < |ids| ==> !Precedes(claims[ids[i]], claims[id])
    ensures forall k | i <= k < |ids| :: Precedes(claims[id], claims[ids[k]])
  {
    hide Precedes;
    if i < |ids| {
      PrecedesOrder(claims[ids[i]], claims[id], claims[id]);
      forall k | i <= k < |ids|
        ensures Precedes(claims[id], claims[ids[k]])
      {
        PrecedesOrder(claims[id], claims[ids[i]], claims[ids[k]]);
      }
    }
  }

  lemma InsertedAscends(claims: Claims, ids: seq<FactId>, id: FactId, i: nat)
    requires Ascending(claims, ids) && id in claims && i <= |ids| && forall k | 0 <= k < |ids| :: ids[k] in claims
    requires forall k | 0 <= k < i :: Precedes(claims[ids[k]], claims[id])
    requires forall k | i <= k < |ids| :: Precedes(claims[id], claims[ids[k]])
    ensures Ascending(claims, ids[..i] + [id] + ids[i..])
  {
    hide Precedes;
  }

  lemma InsertedSet(ids: seq<FactId>, id: FactId, i: nat)
    requires i <= |ids|
    ensures ToSet(ids[..i] + [id] + ids[i..]) == ToSet(ids) + {id}
  {
    assert ids == ids[..i] + ids[i..];
    SetOfConcat(ids[..i], ids[i..]);
    SetOfConcat(ids[..i] + [id], ids[i..]);
    SetOfConcat(ids[..i], [id]);
    assert ToSet([id]) == {id};
  }

  /** `sort_by` recency, then identifier. */
  method SortByRecency(claims: Claims, ids: seq<FactId>) returns (r: seq<FactId>)
    requires WellKeyed(claims) && Distinct(ids) && forall i | 0 <= i < |ids| :: ids[i] in claims
    ensures Ascending(claims, r) && ToSet(r) == ToSet(ids)
  {
    hide Precedes;
    r := [];
    for i := 0 to |ids|
      invariant Ascending(claims, r) && ToSet(r) == ToSet(ids[..i])
    {
      assert ids[i] !in ToSet(ids[..i]);
      r := Insert(claims, r, ids[i]);
      assert ids[..i + 1] == ids[..i] + [ids[i]];
      SetOfConcat(ids[..i], [ids[i]]);
      assert ToSet([ids[i]]) == {ids[i]};
    }
    assert ids[..|ids|] == ids;
  }

  // ----- Groups -----

  function SlotOf(c: Claim): (string, string) { (c.said.entity, c.said.slotKey) }

  predicate InSlot(c: Claim, slot: (string, string)) { Supersedable(c.said.slotType) && SlotOf(c) == slot }

  /** `ids` lists exactly the facts of a slot that are in `among`. */
  ghost predicate Collects(claims: Claims, among: set<FactId>, slot: (string, string), ids: seq<FactId>) {
    Distinct(ids) && forall id :: id in ids <==> id in among && id in claims && InSlot(claims[id], slot)
  }

  ghost predicate GroupsOk(claims: Claims, among: set<FactId>, groups: map<(string, string), seq<FactId>>) {
    && (forall slot {:trigger Collects(claims, among, slot, groups[slot])} | slot in groups ::
        Collects(claims, among, slot, groups[slot]))
    && (forall id | id in among && id in claims && Supersedable(claims[id].said.slotType) ::
        SlotOf(claims[id]) in groups)
  }

  method GroupFacts(claims: Claims) returns (groups: map<(string, string), seq<FactId>>)
    ensures GroupsOk(claims, claims.Keys, groups)
  {
    groups := map[];
    var todo := claims.Keys;
    ghost var done: set<FactId> := {};
    while todo != {}
      invariant todo + done == claims.Keys && todo !! done
      invariant GroupsOk(claims, done, groups)
      decreases |todo|
    {
      var id :| id in todo;
      if Supersedable(claims[id].said.slotType) {
        var slot := SlotOf(claims[id]);
        var before := if slot in groups then groups[slot] else [];
        JoinsSlot(claims, done, groups, id, before);
        groups := groups[slot := before + [id]];
      } else {
        StaysOut(claims, done, groups, id);
      }
      todo, done := todo - {id}, done + {id};
    }
    assert done == claims.Keys;
  }

  lemma JoinsSlot(claims: Claims, done: set<FactId>, groups: map<(string, string), seq<FactId>>, id: FactId,
                  before: seq<FactId>)
    requires GroupsOk(claims, done, groups) && id in claims && id !in done && Supersedable(claims[id].said.slotType)
    requires before == if SlotOf(claims[id]) in groups then groups[SlotOf(claims[id])] else []
    ensures GroupsOk(claims, done + {id}, groups[SlotOf(claims[id]) := before + [id]])
  {
    var slot, more := SlotOf(claims[id]), done + {id};
    var next := groups[slot := before + [id]];
    assert slot in groups ==> Collects(claims, done, slot, before);
    forall s | s in next
      ensures Collects(claims, more, s, next[s])
    {
      if s == slot {
        assert forall x :: x in before <==> x in done && x in claims && InSlot(claims[x], slot);
        assert id !in before;
      } else {
        assert Collects(claims, done, s, groups[s]);
      }
    }
  }

  lemma StaysOut(claims: Claims, done: set<FactId>, groups: map<(string, string), seq<FactId>>, id: FactId)
    requires GroupsOk(claims, done, groups) && id in claims && !Supersedable(claims[id].said.slotType)
    ensures GroupsOk(claims, done + {id}, groups)
  {
    forall s | s in groups
      ensures Collects(claims, done + {id}, s, groups[s])
    {
      assert Collects(claims, done, s, groups[s]);
    }
  }

  // ----- Links along one sorted slot -----

  /** A whole slot in order. */
  ghost predicate WholeSlot(claims: Claims, slot: (string, string), ids: seq<FactId>) {
    Ascending(claims, ids) && forall id :: id in ids <==> id in claims && InSlot(claims[id], slot)
  }

  /** In a sorted slot, straight after means next in the list. */
  lemma NextInSlot(claims: Claims, slot: (string, string), ids: seq<FactId>, k: nat, other: FactId)
    requires WellKeyed(claims) && WholeSlot(claims, slot, ids) && k < |ids|
    ensures Succeeds(claims, ids[k], other) <==> k + 1 < |ids| && other == ids[k + 1]
    ensures Succeeds(claims, other, ids[k]) <==> 0 < k && other == ids[k - 1]
  {
    hide Precedes;
    if k + 1 < |ids| {
      StraightAfter(claims, slot, ids, k);
      if Succeeds(claims, ids[k], other) {
        OneSuccessor(claims, ids[k], other, ids[k + 1]);
      }
    } else if Succeeds(claims, ids[k], other) {
      var j :| 0 <= j < |ids| && ids[j] == other;
      PrecedesOrder(claims[ids[k]], claims[ids[j]], claims[ids[k]]);
    }
    if k > 0 {
      StraightAfter(claims, slot, ids, k - 1);
      if Succeeds(claims, other, ids[k]) {
        OnePredecessor(claims, other, ids[k - 1], ids[k]);
      }
    } else if Succeeds(claims, other, ids[k]) {
      var j :| 0 <= j < |ids| && ids[j] == other;
      PrecedesOrder(claims[ids[k]], claims[ids[j]], claims[ids[k]]);
    }
  }

  lemma StraightAfter(claims: Claims, slot: (string, string), ids: seq<FactId>, k: nat)
    requires WellKeyed(claims) && WholeSlot(claims, slot, ids) && k + 1 < |ids|
    ensures Succeeds(claims, ids[k], ids[k + 1])
  {
    hide Precedes;
    assert ids[k] in ids && ids[k + 1] in ids;
    forall c | c in claims
      ensures !Between(claims, ids[k], ids[k + 1], c)
    {
      if Between(claims, ids[k], ids[k + 1], c) {
        assert c in ids;
        var j :| 0 <= j < |ids| && ids[j] == c;
        if j <= k {
          PrecedesOrder(claims[c], claims[ids[k]], claims[c]);
        } else {
          PrecedesOrder(claims[c], claims[ids[k + 1]], claims[c]);
        }
        assert false;
      }
    }
  }

  // ----- Progress of a rebuild -----

  function Cleared(facts: map<FactId, Fact>): map<FactId, Fact> {
    map id | id in facts :: Fact(facts[id].claim, None, None)
  }

  predicate Bare(f: Fact) { f.supersededBy.None? && f.supersedes.None? }

  /** Facts in `done` carry their links, the others none. */
  ghost predicate PartlyLinked(facts: map<FactId, Fact>, claims: Claims, done: set<FactId>) {
    && ClaimsOf(facts) == claims
    && (forall id {:trigger LinkedAt(facts, id)} | id in facts && id in done :: LinkedAt(facts, id))
    && (forall id | id in facts && id !in done :: Bare(facts[id]))
  }

  function Superseded(facts: map<FactId, Fact>): set<FactId> { set id | id in facts && facts[id].supersededBy.Some? }

  /** The links between the first `n` neighbouring pairs of a list. */
  ghost predicate PairsLinked(facts: map<FactId, Fact>, claims: Claims, ids: seq<FactId>, n: nat)
    requires forall k | 0 <= k < |ids| :: ids[k] in facts && ids[k] in claims
  {
    && (forall k | 0 <= k < |ids| :: facts[ids[k]].supersededBy == After(claims, ids, k, n))
    && (forall k | 0 <= k < |ids| :: facts[ids[k]].supersedes == Before(claims, ids, k, n))
  }

  function After(claims: Claims, ids: seq<FactId>, k: nat, n: nat): Option<FactId>
    requires k < |ids| && forall k | 0 <= k < |ids| :: ids[k] in claims
  {
    if k < n && k + 1 < |ids| && Replaces(claims[ids[k]], claims[ids[k + 1]]) then Some(ids[k + 1]) else None
  }

  function Before(claims: Claims, ids: seq<FactId>, k: nat, n: nat): Option<FactId>
    requires k < |ids| && forall k | 0 <= k < |ids| :: ids[k] in claims
  {
    if 0 < k <= n && Replaces(claims[ids[k - 1]], claims[ids[k]]) then Some(ids[k - 1]) else None
  }

  lemma SlotIsLinked(facts: map<FactId, Fact>, claims: Claims, slot: (string, string), ids: seq<FactId>, k: nat)
    requires WellKeyed(claims) && WholeSlot(claims, slot, ids) && ClaimsOf(facts) == claims && k < |ids|
    requires forall k | 0 <= k < |ids| :: ids[k] in facts && ids[k] in claims
    requires PairsLinked(facts, claims, ids, |ids|)
    ensures LinkedAt(facts, ids[k])
  {
    hide Succeeds, Replaces, Precedes;
    forall other: FactId
      ensures facts[ids[k]].supersededBy == Some(other) <==> Link(ClaimsOf(facts), ids[k], other)
      ensures facts[ids[k]].supersedes == Some(other) <==> Link(ClaimsOf(facts), other, ids[k])
    {
      NextInSlot(claims, slot, ids, k, other);
    }
  }

  /** Facts outside the competing types carry no links, and that is right. */
  lemma OthersAreLinked(facts: map<FactId, Fact>, id: FactId)
    requires id in facts && !Supersedable(facts[id].claim.said.slotType) && Bare(facts[id])
    ensures LinkedAt(facts, id)
  {
    hide Precedes;
  }

  /** Writing links in one slot leaves the others' links right. */
  lemma LinksElsewhere(before: map<FactId, Fact>, after: map<FactId, Fact>, id: FactId)
    requires id in before && id in after && LinkedAt(before, id) && after[id] == before[id]
      && ClaimsOf(before) == ClaimsOf(after)
    ensures LinkedAt(after, id)
  {
    hide Link;
  }

  lemma NoPairYet(facts: map<FactId, Fact>, claims: Claims, ids: seq<FactId>, i: nat)
    requires forall k | 0 <= k < |ids| :: ids[k] in facts && ids[k] in claims
    requires PairsLinked(facts, claims, ids, i) && i + 1 < |ids|
    ensures facts[ids[i]].supersededBy.None? && facts[ids[i + 1]].supersedes.None?
  {
    assert facts[ids[i]].supersededBy == After(claims, ids, i, i);
    assert facts[ids[i + 1]].supersedes == Before(claims, ids, i + 1, i);
  }

  lemma NoPairs(facts: map<FactId, Fact>, claims: Claims, ids: seq<FactId>)
    requires forall k | 0 <= k < |ids| :: ids[k] in facts && ids[k] in claims && Bare(facts[ids[k]])
    ensures PairsLinked(facts, claims, ids, 0)
  {
  }

  lemma OnePairMore(before: map<FactId, Fact>, after: map<FactId, Fact>, claims: Claims, ids: seq<FactId>, i: nat,
                    linked: bool)
    requires Distinct(ids) && (forall k | 0 <= k < |ids| :: ids[k] in before && ids[k] in claims)
    requires ClaimsOf(before) == claims && i + 1 < |ids| && PairsLinked(before, claims, ids, i)
    requires linked <==> Replaces(before[ids[i]].claim, before[ids[i + 1]].claim)
    requires after == if linked then
      before[ids[i] := before[ids[i]].(supersededBy := Some(ids[i + 1]))]
            [ids[i + 1] := before[ids[i + 1]].(supersedes := Some(ids[i]))]
      else before
    ensures forall k | 0 <= k < |ids| :: ids[k] in after
    ensures PairsLinked(after, claims, ids, i + 1)
  {
    hide Replaces;
    assert before[ids[i]].claim == claims[ids[i]] && before[ids[i + 1]].claim == claims[ids[i + 1]];
    forall k | 0 <= k < |ids|
      ensures after[ids[k]].supersededBy == if k == i && linked then Some(ids[i + 1]) else before[ids[k]].supersededBy
      ensures after[ids[k]].supersedes == if k == i + 1 && linked then Some(ids[i]) else before[ids[k]].supersedes
    {
    }
  }

  lemma AllPairs(facts: map<FactId, Fact>, claims: Claims, ids: seq<FactId>, i: nat)
    requires forall k | 0 <= k < |ids| :: ids[k] in facts && ids[k] in claims
    requires PairsLinked(facts, claims, ids, i) && i + 1 >= |ids| && (ids != [] ==> i < |ids|)
    ensures PairsLinked(facts, claims, ids, |ids|)
  {
    hide Replaces;
  }

  // ----- Adding claims -----

  /** Identifiers are hashes of event, position and slot. */
  type Hash = (EventId, nat, string) -> FactId

  ghost predicate Injective(hash: Hash) {
    forall e, i, s, e', i', s' :: hash(e, i, s) == hash(e', i', s') ==> e == e' && i == i' && s == s'
  }

  datatype Batch = Batch(event: EventId, node: NodeId, candidates: seq<Candidate>)

  function ClaimFor(hash: Hash, normalize: FactValue -> string, b: Batch, i: nat): Claim
    requires i < |b.candidates|
  {
    var said := b.candidates[i];
    Claim(hash(b.event, i, said.slotKey), b.event, b.node, said, normalize(said.value))
  }

  /** The claims once the first `n` candidates have been offered: what is there stays. */
  function Added(hash: Hash, normalize: FactValue -> string, claims: Claims, b: Batch, n: nat): Claims
    requires n <= |b.candidates|
  {
    if n == 0 then claims
    else
      var before, c := Added(hash, normalize, claims, b, n - 1), ClaimFor(hash, normalize, b, n - 1);
      if c.id in before then before else before[c.id := c]
  }

  /** `after` is `before` with every candidate filed under its own identifier,
      with its batch's event and node, unless that identifier was already known. */
  ghost predicate Holds(hash: Hash, normalize: FactValue -> string, before: Claims, b: Batch, n: nat, after: Claims)
    requires n <= |b.candidates|
  {
    && (forall id | id in before :: id in after && after[id] == before[id])
    && (forall i | 0 <= i < n :: Files(hash, normalize, before, b, i, after))
    && (forall id | id in after && id !in before :: exists i ::
        0 <= i < n && id == hash(b.event, i, b.candidates[i].slotKey))
  }

  predicate Files(hash: Hash, normalize: FactValue -> string, before: Claims, b: Batch, i: nat, after: Claims)
    requires i < |b.candidates|
  {
    var said := b.candidates[i];
    var id := hash(b.event, i, said.slotKey);
    && id in after
    && (id !in before ==>
          && after[id].id == id && after[id].event == b.event && after[id].node == b.node
          && after[id].said == said && after[id].normalized == normalize(said.value))
  }

  lemma {:induction false} AddedExactly(hash: Hash, normalize: FactValue -> string, claims: Claims, b: Batch, n: nat)
    requires n <= |b.candidates| && Injective(hash)
    ensures Holds(hash, normalize, claims, b, n, Added(hash, normalize, claims, b, n))
    decreases n
  {
    if n > 0 {
      AddedExactly(hash, normalize, claims, b, n - 1);
      var before, after := Added(hash, normalize, claims, b, n - 1), Added(hash, normalize, claims, b, n);
      forall i | 0 <= i < n
        ensures Files(hash, normalize, claims, b, i, after)
      {
        assert i < n - 1 ==> Files(hash, normalize, claims, b, i, before);
      }
    }
  }

  function AddedAll(hash: Hash, normalize: FactValue -> string, claims: Claims, batches: seq<Batch>): Claims {
    if batches == [] then claims
    else
      var last := batches[|batches| - 1];
      Added(hash, normalize, AddedAll(hash, normalize, claims, batches[..|batches| - 1]), last, |last.candidates|)
  }

  /** Every claim came from a candidate of a batch listed. */
  ghost predicate From(hash: Hash, normalize: FactValue -> string, batches: set<Batch>, c: Claim) {
    exists b: Batch, i: nat :: b in batches && i < |b.candidates| && c == ClaimFor(hash, normalize, b, i)
  }

  /** A batch is determined by its event. */
  ghost predicate Determined(batches: set<Batch>) {
    forall a, b | a in batches && b in batches && a.event == b.event :: a == b
  }

  lemma IsFrom(hash: Hash, normalize: FactValue -> string, batches: set<Batch>, b: Batch, i: nat)
    requires b in batches && i < |b.candidates|
    ensures From(hash, normalize, batches, ClaimFor(hash, normalize, b, i))
  {
  }

  lemma {:induction false} AddedIsFrom(hash: Hash, normalize: FactValue -> string, claims: Claims, b: Batch, n: nat,
                                       batches: set<Batch>)
    requires n <= |b.candidates| && b in batches && WellKeyed(claims)
    requires forall id | id in claims :: From(hash, normalize, batches, claims[id])
    ensures WellKeyed(Added(hash, normalize, claims, b, n))
    ensures forall id | id in Added(hash, normalize, claims, b, n) ::
      From(hash, normalize, batches, Added(hash, normalize, claims, b, n)[id])
    ensures forall i | 0 <= i < n :: ClaimFor(hash, normalize, b, i).id in Added(hash, normalize, claims, b, n)
    ensures claims.Keys <= Added(hash, normalize, claims, b, n).Keys
    decreases n
  {
    hide From;
    if n > 0 {
      AddedIsFrom(hash, normalize, claims, b, n - 1, batches);
      IsFrom(hash, normalize, batches, b, n - 1);
    }
  }

  ghost predicate HoldsAll(hash: Hash, normalize: FactValue -> string, claims: Claims, batches: set<Batch>) {
    forall b: Batch, i: nat | b in batches && i < |b.candidates| :: ClaimFor(hash, normalize, b, i).id in claims
  }

  lemma {:induction false} AddedAllIsFrom(hash: Hash, normalize: FactValue -> string, batches: seq<Batch>,
                                          among: set<Batch>)
    requires ToSet(batches) <= among
    ensures WellKeyed(AddedAll(hash, normalize, map[], batches))
    ensures forall id | id in AddedAll(hash, normalize, map[], batches) ::
      From(hash, normalize, among, AddedAll(hash, normalize, map[], batches)[id])
    ensures HoldsAll(hash, normalize, AddedAll(hash, normalize, map[], batches), ToSet(batches))
    decreases |batches|
  {
    hide From;
    if batches != [] {
      var front, last := batches[..|batches| - 1], batches[|batches| - 1];
      assert batches == front + [last];
      SetOfConcat(front, [last]);
      assert last in [last];
      AddedAllIsFrom(hash, normalize, front, among);
      AddedIsFrom(hash, normalize, AddedAll(hash, normalize, map[], front), last, |last.candidates|, among);
    }
  }

  /** For batches determined by their events, the claims held depend only on
      which batches were added, not on order or repetition. */
  lemma ClaimsAreConfluent(hash: Hash, normalize: FactValue -> string, first: seq<Batch>, second: seq<Batch>)
    requires Injective(hash) && ToSet(first) == ToSet(second) && Determined(ToSet(first))
    ensures AddedAll(hash, normalize, map[], first) == AddedAll(hash, normalize, map[], second)
  {
    var batches := ToSet(first);
    AddedAllIsFrom(hash, normalize, first, batches);
    AddedAllIsFrom(hash, normalize, second, batches);
    var a, b := AddedAll(hash, normalize, map[], first), AddedAll(hash, normalize, map[], second);
    forall id | id in a
      ensures id in b && a[id] == b[id]
    {
      SameClaim(hash, normalize, batches, a, b, id);
    }
    forall id | id in b
      ensures id in a
    {
      SameClaim(hash, normalize, batches, b, a, id);
    }
  }

  lemma SameClaim(hash: Hash, normalize: FactValue -> string, batches: set<Batch>, a: Claims, b: Claims, id: FactId)
    requires Injective(hash) && Determined(batches) && id in a && WellKeyed(a) && WellKeyed(b)
    requires From(hash, normalize, batches, a[id]) && HoldsAll(hash, normalize, b, batches)
    requires forall x | x in b :: From(hash, normalize, batches, b[x])
    ensures id in b && a[id] == b[id]
  {
    var p: Batch, i: nat :| p in batches && i < |p.candidates| && a[id] == ClaimFor(hash, normalize, p, i);
    assert ClaimFor(hash, normalize, p, i).id in b;
    assert From(hash, normalize, batches, b[id]);
    var q: Batch, j: nat :| q in batches && j < |q.candidates| && b[id] == ClaimFor(hash, normalize, q, j);
    assert hash(p.event, i, p.candidates[i].slotKey) == hash(q.event, j, q.candidates[j].slotKey);
  }

  /** Hence the same facts with the same links. */
  lemma StoresAreConfluent(hash: Hash, normalize: FactValue -> string, first: seq<Batch>, second: seq<Batch>,
                           a: map<FactId, Fact>, b: map<FactId, Fact>)
    requires Injective(hash) && ToSet(first) == ToSet(second) && Determined(ToSet(first))
    requires Linked(a) && ClaimsOf(a) == AddedAll(hash, normalize, map[], first)
    requires Linked(b) && ClaimsOf(b) == AddedAll(hash, normalize, map[], second)
    ensures a == b
  {
    ClaimsAreConfluent(hash, normalize, first, second);
    LinksAreDetermined(a, b);
  }

  class FactStore {
    const hash: Hash
    const normalize: FactValue -> string
    var facts: map<FactId, Fact>

    ghost predicate Valid()
      reads this
    {
      Linked(facts)
    }

    constructor (hash: Hash, normalize: FactValue -> string)
      ensures Valid() && facts == map[] && this.hash == hash && this.normalize == normalize
    {
      this.hash, this.normalize, facts := hash, normalize, map[];
    }

    /** Offer a batch of candidates; a fact already known stays as it is. */
    method AddCandidates(batch: Batch) returns (count: nat)
      requires Valid()
      modifies this
      ensures Valid() && count == |batch.candidates|
      ensures ClaimsOf(facts) == Added(hash, normalize, ClaimsOf(old(facts)), batch, |batch.candidates|)
      ensures Injective(hash) ==>
        Holds(hash, normalize, ClaimsOf(old(facts)), batch, |batch.candidates|, ClaimsOf(facts))
    {
      hide LinkedAt, Injective, Holds;
      count := |batch.candidates|;
      ghost var claims := ClaimsOf(facts);
      for i := 0 to |batch.candidates|
        invariant ClaimsOf(facts) == Added(hash, normalize, claims, batch, i)
        invariant WellKeyed(ClaimsOf(facts))
      {
        var claim := ClaimFor(hash, normalize, batch, i);
        if claim.id !in facts {
          ghost var before := ClaimsOf(facts);
          facts := facts[claim.id := Fact(claim, None, None)];
          assert ClaimsOf(facts) == before[claim.id := claim];
        }
      }
      if Injective(hash) {
        AddedExactly(hash, normalize, claims, batch, |batch.candidates|);
      }
      var edges := RebuildSupersession();
    }

    /** Active facts whose slot starts with the prefix, oldest first. */
    method ActiveForSlotPrefix(slotPrefix: string) returns (matching: seq<FactId>)
      requires Valid()
      ensures Ascending(ClaimsOf(facts), matching)
      ensures forall id :: id in matching <==>
        id in facts && facts[id].supersededBy.None? && slotPrefix <= facts[id].claim.said.slotKey
    {
      hide LinkedAt, Precedes;
      var ids: seq<FactId> := [];
      var todo := facts.Keys;
      while todo != {}
        invariant todo <= facts.Keys && Distinct(ids)
        invariant forall id :: id in ids <==>
          id in facts && id !in todo && facts[id].supersededBy.None? && slotPrefix <= facts[id].claim.said.slotKey
        decreases |todo|
      {
        var id :| id in todo;
        if facts[id].supersededBy.None? && slotPrefix <= facts[id].claim.said.slotKey {
          ids := ids + [id];
        }
        todo := todo - {id};
      }
      assert forall i | 0 <= i < |ids| :: ids[i] in ids;
      matching := SortByRecency(ClaimsOf(facts), ids);
      SameMembers(matching, ids);
    }

    /** Link one pair of neighbours; a slot's facts each have one neighbour before. */
    method LinkPair(older: FactId, newer: FactId) returns (linked: bool)
      requires older in facts && newer in facts && older != newer
      requires facts[older].supersededBy.None? && facts[newer].supersedes.None?
      modifies this
      ensures ClaimsOf(facts) == ClaimsOf(old(facts)) && facts.Keys == old(facts).Keys
      ensures linked <==> Replaces(old(facts)[older].claim, old(facts)[newer].claim)
      ensures facts == if linked then
        old(facts)[older := old(facts)[older].(supersededBy := Some(newer))]
                  [newer := old(facts)[newer].(supersedes := Some(older))]
        else old(facts)
      ensures |Superseded(facts)| == |Superseded(old(facts))| + if linked then 1 else 0
    {
      linked := RecencyKey(facts[older].claim) != RecencyKey(facts[newer].claim)
        && facts[older].claim.normalized != facts[newer].claim.normalized;
      if linked {
        facts := facts[older := facts[older].(supersededBy := Some(newer))];
        if facts[newer].supersedes.None? {
          facts := facts[newer := facts[newer].(supersedes := Some(older))];
        }
        assert Superseded(facts) == Superseded(old(facts)) + {older};
      }
    }

    /** The scan over neighbours of one sorted slot. */
    method LinkSlot(slot: (string, string), ids: seq<FactId>) returns (edges: nat)
      requires WellKeyed(ClaimsOf(facts)) && WholeSlot(ClaimsOf(facts), slot, ids)
      requires forall k | 0 <= k < |ids| :: ids[k] in facts && Bare(facts[ids[k]])
      modifies this
      ensures ClaimsOf(facts) == ClaimsOf(old(facts)) && facts.Keys == old(facts).Keys
      ensures forall k | 0 <= k < |ids| :: LinkedAt(facts, ids[k])
      ensures forall id | id in facts && id !in ids :: facts[id] == old(facts)[id]
      ensures |Superseded(facts)| == |Superseded(old(facts))| + edges
    {
      hide Succeeds, Replaces, Precedes, LinkedAt, WholeSlot, Superseded, PairsLinked;
      ghost var claims := ClaimsOf(facts);
      DistinctInSlot(claims, slot, ids);
      NoPairs(facts, claims, ids);
      edges := 0;
      var i := 0;
      while i + 1 < |ids|
        invariant 0 <= i && (ids != [] ==> i < |ids|)
        invariant ClaimsOf(facts) == claims && facts.Keys == old(facts).Keys
        invariant PairsLinked(facts, claims, ids, i)
        invariant forall id | id in facts && id !in ids :: facts[id] == old(facts)[id]
        invariant |Superseded(facts)| == |Superseded(old(facts))| + edges
      {
        ghost var before := facts;
        assert ids[i] in ids && ids[i + 1] in ids;
        NoPairYet(facts, claims, ids, i);
        var linked := LinkPair(ids[i], ids[i + 1]);
        OnePairMore(before, facts, claims, ids, i, linked);
        edges := if linked then edges + 1 else edges;
        i := i + 1;
      }
      AllPairs(facts, claims, ids, i);
      forall k | 0 <= k < |ids|
        ensures LinkedAt(facts, ids[k])
      {
        SlotIsLinked(facts, claims, slot, ids, k);
      }
    }

    static lemma DistinctInSlot(claims: Claims, slot: (string, string), ids: seq<FactId>)
      requires WellKeyed(claims) && WholeSlot(claims, slot, ids)
      ensures Distinct(ids) && forall k | 0 <= k < |ids| :: ids[k] in claims
    {
      hide Precedes;
      forall i, j | 0 <= i < j < |ids|
        ensures ids[i] != ids[j]
      {
        PrecedesOrder(claims[ids[i]], claims[ids[j]], claims[ids[i]]);
      }
    }

    /** `rebuild_supersession`: the links become the declared ones, whatever they
        were; the count returned is the number of superseded facts. */
    method RebuildSupersession() returns (edges: nat)
      requires WellKeyed(ClaimsOf(facts))
      modifies this
      ensures ClaimsOf(facts) == ClaimsOf(old(facts)) && Linked(facts)
      ensures edges == |Superseded(facts)|
      ensures Linked(old(facts)) ==> facts == old(facts)
      ensures forall a, b | LonePair(facts, a, b) && facts[a].claim.normalized != facts[b].claim.normalized ::
        facts[a].supersededBy == Some(b) && facts[b].supersededBy == None
    {
      hide LinkedAt, Precedes, Collects, LonePair;
      ghost var claims := ClaimsOf(facts);
      facts := Cleared(facts);
      assert ClaimsOf(facts) == claims;
      var groups := GroupFacts(ClaimsOf(facts));
      edges := 0;
      var todo := groups.Keys;
      ghost var done: set<FactId> := {};
      assert Superseded(facts) == {};
      while todo != {}
        invariant todo <= groups.Keys && edges == |Superseded(facts)|
        invariant PartlyLinked(facts, claims, done)
        invariant forall id | id in claims && Supersedable(claims[id].said.slotType) ::
          id in done <==> SlotOf(claims[id]) !in todo
        invariant forall id | id in done :: id in claims && Supersedable(claims[id].said.slotType)
        decreases |todo|
      {
        var slot :| slot in todo;
        assert Collects(claims, claims.Keys, slot, groups[slot]);
        var more;
        more, done := RebuildSlot(slot, groups[slot], claims, done);
        edges := edges + more;
        todo := todo - {slot};
      }
      Finished(claims, done);
      if Linked(old(facts)) {
        LinksAreDetermined(facts, old(facts));
      }
      LonePairsAreLinked(facts);
    }

    static lemma LonePairsAreLinked(facts: map<FactId, Fact>)
      requires Linked(facts)
      ensures forall a, b | LonePair(facts, a, b) && facts[a].claim.normalized != facts[b].claim.normalized ::
        facts[a].supersededBy == Some(b) && facts[b].supersededBy == None
    {
      hide Linked, TextLess;
      forall a, b | LonePair(facts, a, b) && facts[a].claim.normalized != facts[b].claim.normalized
        ensures facts[a].supersededBy == Some(b) && facts[b].supersededBy == None
      {
        LaterTimeWins(facts, a, b);
      }
    }

    lemma Finished(claims: Claims, done: set<FactId>)
      requires WellKeyed(claims) && PartlyLinked(facts, claims, done)
      requires forall id | id in claims && Supersedable(claims[id].said.slotType) :: id in done
      ensures Linked(facts)
    {
      hide LinkedAt;
      forall id | id in facts
        ensures LinkedAt(facts, id)
      {
        assert facts[id].claim == claims[id];
        if id !in done {
          OthersAreLinked(facts, id);
        }
      }
    }

    method RebuildSlot(slot: (string, string), ids: seq<FactId>, ghost claims: Claims, ghost done: set<FactId>)
      returns (edges: nat, ghost more: set<FactId>)
      requires WellKeyed(claims) && PartlyLinked(facts, claims, done) && Collects(claims, claims.Keys, slot, ids)
      requires forall id | id in claims && InSlot(claims[id], slot) :: id !in done
      modifies this
      ensures PartlyLinked(facts, claims, more)
      ensures forall id :: id in more <==> id in done || (id in claims && InSlot(claims[id], slot))
      ensures |Superseded(facts)| == |Superseded(old(facts))| + edges
    {
      hide LinkedAt, Precedes, Superseded, InSlot;
      var sorted := SortByRecency(ClaimsOf(facts), ids);
      SameMembers(sorted, ids);
      ghost var before := facts;
      edges := LinkSlot(slot, sorted);
      more := done + ToSet(ids);
      assert facts.Keys == ClaimsOf(facts).Keys == before.Keys;
      forall id | id in facts && id in more
        ensures LinkedAt(facts, id)
      {
        if id in sorted {
          var k :| 0 <= k < |sorted| && sorted[k] == id;
        } else {
          assert LinkedAt(before, id);
          LinksElsewhere(before, facts, id);
        }
      }
    }

    static lemma SameMembers(a: seq<FactId>, b: seq<FactId>)
      requires ToSet(a) == ToSet(b)
      ensures forall id :: id in a <==> id in b
    {
      forall id
        ensures id in a <==> id in b
      {
        assert id in a <==> id in ToSet(a);
      }
    }
  }
}

/** Typed facts: what a claim says, how recent it is, and which claim of a slot
    supersedes which, stated without reference to how it is computed. */
module Facts {
  import opened Collections

  type FactId = nat
  type EventId = nat
  type NodeId = nat

  datatype SlotType = State | StateQuantity | Frequency | EventSlot | EventAmount | EventCount | Preference | Entity

  predicate Supersedable(t: SlotType) { t.State? || t.StateQuantity? }

  datatype FactValue = Text(text: string) | Integer(integer: int) | Amount(amount: real)

  datatype TimeSource = Explicit | Relative | Inferred | Unknown

  datatype Candidate = Candidate(
    entity: string, attribute: string, value: FactValue, slotType: SlotType, slotKey: string,
    eventTime: Option<string>, sessionTime: Option<string>, timeSource: TimeSource, arrival: (nat, nat))

  /** Everything about a fact but its links. */
  datatype Claim = Claim(id: FactId, event: EventId, node: NodeId, said: Candidate, normalized: string)

  datatype Fact = Fact(claim: Claim, supersededBy: Option<FactId>, supersedes: Option<FactId>)

  type Claims = map<FactId, Claim>

  // ----- Recency -----

  /** Byte order on text. */
  predicate TextLess(a: string, b: string) {
    if b == [] then false
    else if a == [] then true
    else a[0] < b[0] || (a[0] == b[0] && TextLess(a[1..], b[1..]))
  }

  lemma {:induction false} TextOrder(a: string, b: string, c: string)
    ensures !TextLess(a, a)
    ensures TextLess(a, b) && TextLess(b, c) ==> TextLess(a, c)
    ensures a == b || TextLess(a, b) || TextLess(b, a)
    decreases |a| + |b| + |c|
  {
    if a != [] {
      var a', b', c' := a[1..], if b == [] then [] else b[1..], if c == [] then [] else c[1..];
      TextOrder(a', b', c');
      assert a == [a[0]] + a';
      assert b != [] ==> b == [b[0]] + b';
    }
  }

  /** One text comes before another when it is a proper front part of it, or has
      the smaller character where they first differ. */
  lemma {:induction false} TextLessExactly(a: string, b: string)
    ensures TextLess(a, b) <==> exists n: nat :: DifferAt(a, b, n)
    decreases |a|
  {
    if b == [] {
    } else if a == [] {
      assert DifferAt(a, b, 0);
    } else {
      TextLessExactly(a[1..], b[1..]);
      if TextLess(a[1..], b[1..]) && a[0] == b[0] {
        var n: nat :| DifferAt(a[1..], b[1..], n);
        assert a == [a[0]] + a[1..] && b == [b[0]] + b[1..];
        assert a[..n + 1] == [a[0]] + a[1..][..n] && b[..n + 1] == [b[0]] + b[1..][..n];
        assert DifferAt(a, b, n + 1);
      } else if a[0] < b[0] {
        assert DifferAt(a, b, 0);
      }
      if n: nat :| DifferAt(a, b, n) {
        if n > 0 {
          assert a[0] == a[..n][0] == b[..n][0] == b[0];
          assert a[..n][1..] == a[1..][..n - 1] && b[..n][1..] == b[1..][..n - 1];
          assert DifferAt(a[1..], b[1..], n - 1);
        }
      }
    }
  }

  predicate DifferAt(a: string, b: string, n: nat) {
    n <= |a| && n < |b| && a[..n] == b[..n] && (n < |a| ==> a[n] < b[n])
  }

  datatype Key = Key(tier: nat, time: string, major: nat, minor: nat)

  predicate KeyLess(a: Key, b: Key) {
    || a.tier < b.tier
    || (a.tier == b.tier && TextLess(a.time, b.time))
    || (a.tier == b.tier && a.time == b.time && a.major < b.major)
    || (a.tier == b.tier && a.time == b.time && a.major == b.major && a.minor < b.minor)
  }

  lemma KeyOrder(a: Key, b: Key, c: Key)
    ensures !KeyLess(a, a)
    ensures KeyLess(a, b) && KeyLess(b, c) ==> KeyLess(a, c)
    ensures a == b || KeyLess(a, b) || KeyLess(b, a)
  {
    hide TextLess;
    TextOrder(a.time, b.time, c.time);
  }

  /** `recency_key`: an event's own time if stated, else its session's, else
      its order of arrival. Stated times come before all others. */
  function RecencyKey(c: Claim): Key {
    if (c.said.timeSource.Explicit? || c.said.timeSource.Relative?) && c.said.eventTime.Some?
    then Key(0, c.said.eventTime.value, 0, 0)
    else if c.said.sessionTime.Some? then Key(1, c.said.sessionTime.value, 0, 0)
    else Key(2, "", c.said.arrival.0, c.said.arrival.1)
  }

  predicate Newer(a: Claim, b: Claim) { KeyLess(RecencyKey(a), RecencyKey(b)) }

  /** Told with a time of its own. */
  predicate Dated(c: Candidate) { (c.timeSource == Explicit || c.timeSource == Relative) && c.eventTime != None }

  /** Events told with their own time compare by it, whatever their sessions, and
      come before all others; of those, sessions compare by their time and come
      before facts with neither, which compare by arrival. */
  lemma NewerExactly(a: Claim, b: Claim)
    ensures Dated(a.said) && Dated(b.said) ==>
      (Newer(a, b) <==> TextLess(a.said.eventTime.value, b.said.eventTime.value))
    ensures Dated(a.said) && !Dated(b.said) ==> Newer(a, b) && !Newer(b, a)
    ensures !Dated(a.said) && !Dated(b.said) && a.said.sessionTime.Some? && b.said.sessionTime.Some? ==>
      (Newer(a, b) <==> TextLess(a.said.sessionTime.value, b.said.sessionTime.value))
    ensures !Dated(a.said) && !Dated(b.said) && a.said.sessionTime.Some? && b.said.sessionTime.None? ==>
      Newer(a, b) && !Newer(b, a)
    ensures !Dated(a.said) && !Dated(b.said) && a.said.sessionTime.None? && b.said.sessionTime.None? ==>
      (Newer(a, b) <==> a.said.arrival.0 < b.said.arrival.0
                        || (a.said.arrival.0 == b.said.arrival.0 && a.said.arrival.1 < b.said.arrival.1))
  {
    hide TextLess;
    if a.said.eventTime.Some? && b.said.eventTime.Some? {
      TextOrder(a.said.eventTime.value, b.said.eventTime.value, a.said.eventTime.value);
    }
    if a.said.sessionTime.Some? && b.said.sessionTime.Some? {
      TextOrder(a.said.sessionTime.value, b.said.sessionTime.value, a.said.sessionTime.value);
    }
    TextOrder("", "", "");
  }

  /** Equally recent means that neither is newer. */
  lemma SameRecency(a: Claim, b: Claim)
    ensures RecencyKey(a) == RecencyKey(b) <==> !Newer(a, b) && !Newer(b, a)
  {
    hide KeyLess, RecencyKey;
    KeyOrder(RecencyKey(a), RecencyKey(b), RecencyKey(a));
  }

  /** Recency, ties broken by identifier. */
  predicate Precedes(a: Claim, b: Claim) {
    Newer(a, b) || (RecencyKey(a) == RecencyKey(b) && a.id < b.id)
  }

  lemma PrecedesOrder(a: Claim, b: Claim, c: Claim)
    ensures !Precedes(a, a)
    ensures Precedes(a, b) && Precedes(b, c) ==> Precedes(a, c)
    ensures a.id != b.id ==> Precedes(a, b) || Precedes(b, a)
  {
    hide KeyLess, RecencyKey;
    KeyOrder(RecencyKey(a), RecencyKey(b), RecencyKey(c));
  }

  // ----- Supersession, declaratively -----

  predicate Competes(a: Claim, b: Claim) {
    && Supersedable(a.said.slotType) && Supersedable(b.said.slotType)
    && a.said.entity == b.said.entity && a.said.slotKey == b.said.slotKey
  }

  predicate WellKeyed(claims: Claims) { forall id | id in claims :: claims[id].id == id }

  /** `b` comes straight after `a` among the facts of their slot. */
  ghost predicate Succeeds(claims: Claims, a: FactId, b: FactId) {
    && a in claims && b in claims && Competes(claims[a], claims[b]) && Precedes(claims[a], claims[b])
    && forall c {:trigger Between(claims, a, b, c)} | c in claims :: !Between(claims, a, b, c)
  }

  predicate Between(claims: Claims, a: FactId, b: FactId, c: FactId)
    requires a in claims && b in claims && c in claims
  {
    Competes(claims[a], claims[c]) && Precedes(claims[a], claims[c]) && Precedes(claims[c], claims[b])
  }

  /** Strictly later and saying something else. */
  predicate Replaces(a: Claim, b: Claim) { RecencyKey(a) != RecencyKey(b) && a.normalized != b.normalized }

  ghost predicate Link(claims: Claims, a: FactId, b: FactId) {
    Succeeds(claims, a, b) && Replaces(claims[a], claims[b])
  }

  function ClaimsOf(facts: map<FactId, Fact>): Claims { map id | id in facts :: facts[id].claim }

  /** The links of one fact are the declared ones. */
  ghost predicate LinkedAt(facts: map<FactId, Fact>, id: FactId)
    requires id in facts
  {
    && (forall other: FactId :: facts[id].supersededBy == Some(other) <==> Link(ClaimsOf(facts), id, other))
    && (forall other: FactId :: facts[id].supersedes == Some(other) <==> Link(ClaimsOf(facts), other, id))
  }

  ghost predicate Linked(facts: map<FactId, Fact>) {
    && WellKeyed(ClaimsOf(facts))
    && forall id {:trigger LinkedAt(facts, id)} | id in facts :: LinkedAt(facts, id)
  }

  // ----- What the links mean -----

  lemma OneSuccessor(claims: Claims, a: FactId, b: FactId, c: FactId)
    requires WellKeyed(claims) && Succeeds(claims, a, b) && Succeeds(claims, a, c)
    ensures b == c
  {
    hide Precedes;
    PrecedesOrder(claims[b], claims[c], claims[b]);
    assert !Between(claims, a, b, c) && !Between(claims, a, c, b);
  }

  lemma OnePredecessor(claims: Claims, a: FactId, b: FactId, c: FactId)
    requires WellKeyed(claims) && Succeeds(claims, a, c) && Succeeds(claims, b, c)
    ensures a == b
  {
    hide Precedes;
    PrecedesOrder(claims[a], claims[b], claims[a]);
    assert !Between(claims, a, c, b) && !Between(claims, b, c, a);
  }

  /** The two link fields are inverse partial maps, within one slot, from older
      to strictly newer. */
  lemma LinksAreInverse(facts: map<FactId, Fact>, a: FactId, b: FactId)
    requires Linked(facts) && a in facts
    ensures facts[a].supersededBy == Some(b) <==> b in facts && facts[b].supersedes == Some(a)
    ensures facts[a].supersededBy == Some(b) ==>
      Competes(facts[a].claim, facts[b].claim) && Newer(facts[a].claim, facts[b].claim)
    ensures facts[a].supersededBy == Some(b) ==> facts[a].claim.normalized != facts[b].claim.normalized
  {
    hide KeyLess, RecencyKey;
    assert LinkedAt(facts, a);
    if b in facts {
      assert LinkedAt(facts, b);
    }
  }

  ghost predicate Chain(facts: map<FactId, Fact>, path: seq<FactId>) {
    && (forall i | 0 <= i < |path| :: path[i] in facts)
    && (forall i | 0 <= i < |path| - 1 :: facts[path[i]].supersededBy == Some(path[i + 1]))
  }

  /** Chains never come back: recency strictly grows along them. */
  lemma {:induction false} ChainsGrow(facts: map<FactId, Fact>, path: seq<FactId>)
    requires Linked(facts) && Chain(facts, path) && |path| >= 2
    ensures Newer(facts[path[0]].claim, facts[path[|path| - 1]].claim) && path[0] != path[|path| - 1]
    decreases |path|
  {
    hide KeyLess, RecencyKey, Linked;
    LinksAreInverse(facts, path[0], path[1]);
    var first, second, last := facts[path[0]].claim, facts[path[1]].claim, facts[path[|path| - 1]].claim;
    if |path| > 2 {
      ChainsGrow(facts, path[1..]);
    }
    KeyOrder(RecencyKey(first), RecencyKey(second), RecencyKey(last));
  }

  /** The newest fact of a slot is active. */
  lemma NewestIsActive(facts: map<FactId, Fact>, id: FactId)
    requires Linked(facts) && id in facts
    requires forall other | other in facts && Competes(facts[id].claim, facts[other].claim) ::
      !Precedes(facts[id].claim, facts[other].claim)
    ensures facts[id].supersededBy == None
  {
    hide Precedes;
    assert LinkedAt(facts, id);
    forall other: FactId
      ensures !Link(ClaimsOf(facts), id, other)
    {
    }
  }

  /** A fact with a later one in its slot is superseded exactly when the next
      one is strictly later and says something else; otherwise it stays active. */
  lemma SupersededExactly(facts: map<FactId, Fact>, a: FactId, b: FactId)
    requires Linked(facts) && Succeeds(ClaimsOf(facts), a, b)
    ensures facts[a].supersededBy == if Replaces(facts[a].claim, facts[b].claim) then Some(b) else None
  {
    hide Succeeds, RecencyKey;
    InBoth(ClaimsOf(facts), a, b);
    assert LinkedAt(facts, a);
    if facts[a].supersededBy.Some? {
      var c := facts[a].supersededBy.value;
      assert Link(ClaimsOf(facts), a, c);
      OneSuccessor(ClaimsOf(facts), a, b, c);
    }
    if Replaces(facts[a].claim, facts[b].claim) {
      assert Link(ClaimsOf(facts), a, b);
    }
  }

  lemma InBoth(claims: Claims, a: FactId, b: FactId)
    requires Succeeds(claims, a, b)
    ensures a in claims && b in claims
  {
  }

  /** The links are determined by the claims alone. */
  lemma LinksAreDetermined(first: map<FactId, Fact>, second: map<FactId, Fact>)
    requires Linked(first) && Linked(second) && ClaimsOf(first) == ClaimsOf(second)
    ensures first == second
  {
    hide Link;
    assert first.Keys == ClaimsOf(first).Keys == ClaimsOf(second).Keys == second.Keys;
    forall id | id in first
      ensures first[id] == second[id]
    {
      assert LinkedAt(first, id) && LinkedAt(second, id);
      assert first[id].claim == ClaimsOf(first)[id] == second[id].claim;
      SameOption(first[id].supersededBy, second[id].supersededBy);
      SameOption(first[id].supersedes, second[id].supersedes);
    }
  }

  lemma SameOption(a: Option<FactId>, b: Option<FactId>)
    requires forall x: FactId :: a == Some(x) <==> b == Some(x)
    ensures a == b
  {
    assert a.Some? ==> b == Some(a.value);
    assert b.Some? ==> a == Some(b.value);
  }

  predicate SpeaksOf(c: Candidate, entity: string, slotKey: string) {
    (c.slotType == State || c.slotType == StateQuantity) && c.entity == entity && c.slotKey == slotKey
  }

  /** Two state facts alone in their slot, told with times of their own, the first earlier. */
  ghost predicate LonePair(facts: map<FactId, Fact>, a: FactId, b: FactId) {
    && a in facts && b in facts
    && var x, y := facts[a].claim.said, facts[b].claim.said;
    && SpeaksOf(x, y.entity, y.slotKey) && SpeaksOf(y, x.entity, x.slotKey)
    && Dated(x) && Dated(y) && TextLess(x.eventTime.value, y.eventTime.value)
    && forall c | c in facts && SpeaksOf(facts[c].claim.said, x.entity, x.slotKey) :: c == a || c == b
  }

  /** Of such a pair with different values the earlier is superseded by the later. */
  lemma LaterTimeWins(facts: map<FactId, Fact>, a: FactId, b: FactId)
    requires Linked(facts) && LonePair(facts, a, b)
    requires facts[a].claim.normalized != facts[b].claim.normalized
    ensures facts[a].supersededBy == Some(b) && facts[b].supersededBy == None
    ensures facts[b].supersedes == Some(a) && facts[a].supersedes == None
  {
    hide TextLess, KeyLess, RecencyKey, Linked;
    var claims := ClaimsOf(facts);
    NewerExactly(facts[a].claim, facts[b].claim);
    SameRecency(facts[a].claim, facts[b].claim);
    assert claims[a] == facts[a].claim && claims[b] == facts[b].claim;
    forall c | c in claims
      ensures !Between(claims, a, b, c)
    {
      assert claims[c] == facts[c].claim;
      PrecedesOrder(claims[c], claims[c], claims[c]);
    }
    assert Succeeds(claims, a, b);
    SupersededExactly(facts, a, b);
    LinksAreInverse(facts, a, b);
    OnlySlotIsLinked(facts, a, b);
  }

  lemma OnlySlotIsLinked(facts: map<FactId, Fact>, a: FactId, b: FactId)
    requires Linked(facts) && LonePair(facts, a, b)
    ensures facts[b].supersededBy == None && facts[a].supersedes == None
  {
    hide TextLess, RecencyKey, Linked, KeyLess;
    NewerExactly(facts[a].claim, facts[b].claim);
    KeyOrder(RecencyKey(facts[a].claim), RecencyKey(facts[b].claim), RecencyKey(facts[a].claim));
    if facts[b].supersededBy.Some? {
      LinkedFacts(facts, b);
      LinksAreInverse(facts, b, facts[b].supersededBy.value);
    }
    if facts[a].supersedes.Some? {
      LinkedFacts(facts, a);
      LinksAreInverse(facts, facts[a].supersedes.value, a);
    }
  }

  /** Links join different facts of the store; only state facts have any. */
  lemma LinkedFacts(facts: map<FactId, Fact>, id: FactId)
    requires Linked(facts) && id in facts
    ensures facts[id].supersededBy.Some? ==>
      facts[id].supersededBy.value in facts && facts[id].supersededBy.value != id
    ensures facts[id].supersedes.Some? ==> facts[id].supersedes.value in facts && facts[id].supersedes.value != id
    ensures facts[id].supersededBy.Some? || facts[id].supersedes.Some? ==>
      facts[id].claim.said.slotType == State || facts[id].claim.said.slotType == StateQuantity
  {
    hide Precedes, Replaces;
    assert LinkedAt(facts, id);
    assert ClaimsOf(facts)[id] == facts[id].claim;
    PrecedesOrder(facts[id].claim, facts[id].claim, facts[id].claim);
    if facts[id].supersededBy.Some? {
      assert Link(ClaimsOf(facts), id, facts[id].supersededBy.value);
    }
    if facts[id].supersedes.Some? {
      assert Link(ClaimsOf(facts), facts[id].supersedes.value, id);
    }
  }

  /** Only neighbours are compared: of values A, A, B in time order the first A
      stays active although B is later and different. */
  lemma FirstOfThreeStaysActive(a: Claim, b: Claim, c: Claim, facts: map<FactId, Fact>)
    requires Linked(facts) && ClaimsOf(facts) == map[0 := a, 1 := b, 2 := c]
    requires Competes(a, b) && Competes(b, c) && Newer(a, b) && Newer(b, c)
    requires a.normalized == b.normalized != c.normalized
    ensures facts.Keys == {0, 1, 2} && facts[0].supersededBy == None && facts[1].supersededBy == Some(2)
  {
    hide KeyLess, RecencyKey, Linked;
    var claims := ClaimsOf(facts);
    assert facts.Keys == claims.Keys;
    KeyOrder(RecencyKey(a), RecencyKey(b), RecencyKey(c));
    KeyOrder(RecencyKey(b), RecencyKey(a), RecencyKey(b));
    KeyOrder(RecencyKey(c), RecencyKey(b), RecencyKey(c));
    KeyOrder(RecencyKey(b), RecencyKey(c), RecencyKey(b));
    KeyOrder(RecencyKey(c), RecencyKey(a), RecencyKey(b));
    assert Succeeds(claims, 0, 1) && Succeeds(claims, 1, 2);
    assert facts[0].claim == claims[0] && facts[1].claim == claims[1] && facts[2].claim == claims[2];
    SupersededExactly(facts, 0, 1);
    SupersededExactly(facts, 1, 2);
  }
}

/** Orders used throughout the memory store: identifiers ascending (a BTreeMap's
    iteration order) and identifiers by score descending, ties by identifier. */
module Ranking {
  import opened Collections

  /** A 32-byte hash read as one big-endian number, so `<` is the byte order. */
  type NodeId = nat

  type Row = map<NodeId, real>

  type Graph = map<NodeId, Row>

  type Pairs = map<(NodeId, NodeId), real>

  ghost predicate Ascending(xs: seq<NodeId>) {
    forall i, j :: 0 <= i < j < |xs| ==> xs[i] < xs[j]
  }

  predicate Before(score: Row, a: NodeId, b: NodeId)
    requires a in score && b in score
  {
    score[a] > score[b] || (score[a] == score[b] && a < b)
  }

  predicate Leads(score: Row, a: NodeId) {
    a in score && forall b | b in score :: b == a || Before(score, a, b)
  }

  lemma {:induction false} LeaderExists(score: Row)
    requires score != map[]
    ensures exists a :: Leads(score, a)
    decreases score.Keys
  {
    var k :| k in score;
    var rest := score - {k};
    assert rest.Keys == score.Keys - {k};
    if rest.Keys == {} {
      assert forall b | b in score :: b == k || b in rest.Keys;
      assert Leads(score, k);
    } else {
      LeaderExists(rest);
      var a :| Leads(rest, a);
      assert forall b | b in score && b != k :: b in rest && rest[b] == score[b];
      assert Leads(score, if Before(score, a, k) then a else k);
    }
  }

  /** A row's keys by score descending, equal scores by identifier ascending. */
  function Ranked(score: Row): seq<NodeId>
    decreases score.Keys
  {
    if score == map[] then [] else
      LeaderExists(score);
      var top :| Leads(score, top);
      assert (score - {top}).Keys == score.Keys - {top};
      [top] + Ranked(score - {top})
  }

  /** Ranking a non-empty row starts with the leader and ranks the rest. */
  lemma RankedUnfold(score: Row) returns (top: NodeId)
    requires score != map[]
    ensures Leads(score, top) && Ranked(score) == [top] + Ranked(score - {top})
    ensures (score - {top}).Keys == score.Keys - {top}
  {
    top := Ranked(score)[0];
  }

  lemma {:induction false} RankedKeys(score: Row)
    ensures ToSet(Ranked(score)) == score.Keys
    ensures |Ranked(score)| == |score.Keys|
    ensures Distinct(Ranked(score))
    decreases score.Keys
  {
    if score != map[] {
      var top := RankedUnfold(score);
      var tail := Ranked(score - {top});
      RankedKeys(score - {top});
      SetOfConcat([top], tail);
      assert top !in ToSet(tail);
    } else {
      assert ToSet(Ranked(score)) == {};
    }
  }

  lemma {:induction false} RankedDescends(score: Row)
    ensures forall i | 0 <= i < |Ranked(score)| :: Ranked(score)[i] in score
    ensures forall i, j | 0 <= i < j < |Ranked(score)| :: Before(score, Ranked(score)[i], Ranked(score)[j])
    decreases score.Keys
  {
    if score != map[] {
      var top := RankedUnfold(score);
      RankedDescends(score - {top});
    }
  }

  function Take<T>(xs: seq<T>, n: nat): seq<T> {
    if |xs| <= n then xs else xs[..n]
  }

  /** The `limit` best entries of a row, as `truncate` after sorting leaves them. */
  function Trimmed(row: Row, limit: nat): Row {
    map id | id in row && id in Take(Ranked(row), limit) :: row[id]
  }

  ghost function Ahead(row: Row, id: NodeId): set<NodeId>
    requires id in row
  {
    set b | b in row && b != id && Before(row, b, id)
  }

  lemma AheadUnfold(row: Row, top: NodeId, id: NodeId)
    requires Leads(row, top) && id in row && id != top
    ensures |Ahead(row, id)| == |Ahead(row - {top}, id)| + 1
  {
    assert Ahead(row, id) == Ahead(row - {top}, id) + {top};
  }

  lemma {:induction false} RankedPrefix(row: Row, limit: nat, id: NodeId)
    requires id in row
    ensures id in Take(Ranked(row), limit) <==> |Ahead(row, id)| < limit
    decreases row.Keys
  {
    var top := RankedUnfold(row);
    var rest := row - {top};
    if limit > 0 {
      var tail := Take(Ranked(rest), limit - 1);
      assert Take(Ranked(row), limit) == [top] + tail;
      if id == top {
        assert Ahead(row, id) == {};
        assert ([top] + tail)[0] == top;
      } else {
        AheadUnfold(row, top, id);
        RankedPrefix(rest, limit - 1, id);
        assert id in [top] + tail <==> id in tail;
      }
    }
  }

  lemma TrimmedByRank(row: Row, limit: nat)
    ensures forall id :: id in Trimmed(row, limit) <==> id in row && |Ahead(row, id)| < limit
    ensures forall id | id in Trimmed(row, limit) :: Trimmed(row, limit)[id] == row[id]
  {
    hide Ranked, Ahead, Take;
    forall id | id in row
      ensures id in Trimmed(row, limit) <==> |Ahead(row, id)| < limit
    {
      RankedPrefix(row, limit, id);
    }
  }

  lemma TrimmedAmong(row: Row, limit: nat)
    ensures Trimmed(row, limit).Keys <= ToSet(Take(Ranked(row), limit))
  {
    hide Ranked, Take;
  }

  lemma TrimmedFits(row: Row, limit: nat)
    ensures |Trimmed(row, limit)| <= limit
  {
    hide Ranked, Trimmed;
    RankedKeys(row);
    TrimmedAmong(row, limit);
    var best := Take(Ranked(row), limit);
    DistinctSize(best);
    SubsetSize(Trimmed(row, limit).Keys, ToSet(best));
    assert |Trimmed(row, limit)| == |Trimmed(row, limit).Keys|;
  }

  lemma TrimmedWhole(row: Row, limit: nat)
    requires |row| <= limit
    ensures Trimmed(row, limit) == row
  {
    hide Ranked;
    RankedKeys(row);
    assert |row| == |row.Keys| && Take(Ranked(row), limit) == Ranked(row);
    forall id | id in row
      ensures id in Trimmed(row, limit)
    {
      assert id in ToSet(Ranked(row));
    }
  }

  /** Truncation keeps exactly the entries that fewer than `limit` others beat,
      an account of the result that never mentions the sort; so no more than
      `limit` survive and a row that already fits is untouched. */
  lemma TrimmedExactly(row: Row, limit: nat)
    ensures forall id :: id in Trimmed(row, limit) <==> id in row && |Ahead(row, id)| < limit
    ensures forall id | id in Trimmed(row, limit) :: Trimmed(row, limit)[id] == row[id]
    ensures |Trimmed(row, limit)| <= limit
    ensures |row| <= limit ==> Trimmed(row, limit) == row
  {
    hide Ranked, Ahead, Take, Trimmed;
    TrimmedByRank(row, limit);
    TrimmedFits(row, limit);
    if |row| <= limit {
      TrimmedWhole(row, limit);
    }
  }

  /** A BTreeMap's keys in iteration order. */
  function Sorted(ids: set<NodeId>): seq<NodeId> {
    Ranked(map id | id in ids :: 0.0)
  }

  lemma {:induction false} EqualScoresAscend(row: Row)
    requires forall id | id in row :: row[id] == 0.0
    ensures Ascending(Ranked(row))
    decreases row.Keys
  {
    if row != map[] {
      var top := RankedUnfold(row);
      var tail := Ranked(row - {top});
      EqualScoresAscend(row - {top});
      RankedKeys(row - {top});
      forall i | 0 <= i < |tail|
        ensures top < tail[i]
      {
        assert tail[i] in ToSet(tail);
      }
    }
  }

  lemma SortedKeys(ids: set<NodeId>)
    ensures ToSet(Sorted(ids)) == ids && |Sorted(ids)| == |ids|
    ensures Ascending(Sorted(ids)) && Distinct(Sorted(ids))
  {
    var row: Row := map id | id in ids :: 0.0;
    assert row.Keys == ids;
    RankedKeys(row);
    EqualScoresAscend(row);
  }
}

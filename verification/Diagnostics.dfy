/** Each agent's bounded window of feeling samples: one hash chain with
    consecutive update counts, and when a trend over it is complete. */
module Diagnostics {
  import opened Collections

  const WINDOW: nat := 100
  const TREND: nat := 10

  type AgentId = nat
  type EventId = nat
  type Hash = nat

  datatype Float = Finite(value: real) | NonFinite

  datatype Sample = Sample(
    agent: AgentId, event: EventId, count: nat, valence: Float, arousal: Float, state: Hash, predecessor: Hash)

  predicate Usable(s: Sample) { s.count != 0 && s.valence.Finite? && s.arousal.Finite? }

  /** The same observation of the same update. */
  predicate Same(a: Sample, b: Sample) {
    a.count == b.count && a.state == b.state && a.event == b.event && a.valence == b.valence && a.arousal == b.arousal
  }

  predicate Follows(last: Sample, next: Sample) {
    last.state == next.predecessor && last.count < U64_MAX && last.count + 1 == next.count
  }

  function Capped(samples: seq<Sample>): seq<Sample> {
    if |samples| > WINDOW then samples[|samples| - WINDOW..] else samples
  }

  /** One agent's window after a valid sample. */
  function Extended(samples: seq<Sample>, s: Sample): seq<Sample> {
    if exists i | 0 <= i < |samples| :: Same(samples[i], s) then samples
    else if samples != [] && !Follows(samples[|samples| - 1], s) then [s]
    else Capped(samples + [s])
  }

  function WindowOf(agents: map<AgentId, seq<Sample>>, agent: AgentId): seq<Sample> {
    if agent in agents then agents[agent] else []
  }

  /** All windows after a batch, which stops at its first invalid sample. */
  function WindowsAfter(agents: map<AgentId, seq<Sample>>, batch: seq<Sample>, n: nat): map<AgentId, seq<Sample>>
    requires n <= |batch|
  {
    if n == 0 then agents
    else
      var before := WindowsAfter(agents, batch, n - 1);
      before[batch[n - 1].agent := Extended(WindowOf(before, batch[n - 1].agent), batch[n - 1])]
  }

  // ----- The window invariant -----

  /** At most a hundred samples of one agent, each the hash successor of the one
      before it and counting one more. */
  predicate Chained(samples: seq<Sample>, agent: AgentId) {
    && |samples| <= WINDOW
    && (forall i | 0 <= i < |samples| :: samples[i].agent == agent && Usable(samples[i]))
    && (forall i | 0 <= i < |samples| - 1 :: Follows(samples[i], samples[i + 1]))
  }

  predicate AllChained(agents: map<AgentId, seq<Sample>>) {
    forall a | a in agents :: Chained(agents[a], a)
  }

  lemma ExtendedIsChained(samples: seq<Sample>, s: Sample)
    requires Chained(samples, s.agent) && Usable(s)
    ensures Chained(Extended(samples, s), s.agent)
    ensures Extended(samples, s) != []
      && (exists i | 0 <= i < |Extended(samples, s)| :: Same(Extended(samples, s)[i], s))
  {
    var r := Extended(samples, s);
    if forall i | 0 <= i < |samples| :: !Same(samples[i], s) {
      assert r[|r| - 1] == s;
    }
  }

  lemma {:induction false} EveryWindowIsChained(agents: map<AgentId, seq<Sample>>, batch: seq<Sample>, n: nat)
    requires AllChained(agents) && n <= |batch| && forall i | 0 <= i < n :: Usable(batch[i])
    ensures AllChained(WindowsAfter(agents, batch, n))
    decreases n
  {
    if n > 0 {
      EveryWindowIsChained(agents, batch, n - 1);
      ExtendedIsChained(WindowOf(WindowsAfter(agents, batch, n - 1), batch[n - 1].agent), batch[n - 1]);
    }
  }

  lemma {:induction false} CountsRunOn(samples: seq<Sample>, agent: AgentId, i: nat, j: nat)
    requires Chained(samples, agent) && i <= j < |samples|
    ensures samples[j].count == samples[i].count + (j - i)
    decreases j
  {
    if i < j {
      CountsRunOn(samples, agent, i, j - 1);
      assert Follows(samples[j - 1], samples[j]);
    }
  }

  // ----- Trends -----

  predicate Live(s: Sample, count: nat, events: set<EventId>) { s.count <= count && s.event in events }

  /** The live samples up to a count, oldest first. */
  function Known(samples: seq<Sample>, count: nat, events: set<EventId>): seq<Sample> {
    if samples == [] then []
    else
      var last := samples[|samples| - 1];
      Known(samples[..|samples| - 1], count, events) + if Live(last, count, events) then [last] else []
  }

  /** The last `m` known samples count down from `from`. */
  predicate CountDown(known: seq<Sample>, from: int, m: nat) {
    m == 0 || (known != [] && known[|known| - 1].count == from && CountDown(known[..|known| - 1], from - 1, m - 1))
  }

  ghost predicate Retained(samples: seq<Sample>, count: nat, events: set<EventId>, c: int) {
    exists i | 0 <= i < |samples| :: Live(samples[i], count, events) && samples[i].count == c
  }

  /** A live sample is kept for each of the `m` counts ending with `from`. */
  ghost predicate AllRetained(samples: seq<Sample>, count: nat, events: set<EventId>, from: int, m: nat) {
    forall c {:trigger Retained(samples, count, events, c)} | from - m < c <= from ::
      Retained(samples, count, events, c)
  }

  /** The latest known samples count down from `from` exactly when a live sample
      is retained for each of those counts. */
  lemma {:induction false} CountDownExactly(samples: seq<Sample>, agent: AgentId, count: nat, events: set<EventId>,
                                            from: int, m: nat)
    requires Chained(samples, agent) && from <= count
    requires samples != [] ==> samples[|samples| - 1].count <= from || from == count
    ensures CountDown(Known(samples, count, events), from, m) <==> AllRetained(samples, count, events, from, m)
    decreases |samples|
  {
    hide Chained, AllRetained, Retained, Known, CountDown, Live;
    var known := Known(samples, count, events);
    CountDownUnfold(known, from, m);
    if m == 0 {
      NoneToRetain(samples, count, events, from);
    } else if samples == [] {
      NothingKnown(count, events, from);
      MissingOne(samples, count, events, from, m);
    } else {
      var n := |samples| - 1;
      var front, last := samples[..n], samples[n];
      FrontIsBelow(samples, agent);
      KnownUnfold(samples, count, events);
      if !Live(last, count, events) {
        CountDownExactly(front, agent, count, events, from, m);
        SameRetained(samples, count, events, from, m);
      } else if last.count == from {
        CountDownExactly(front, agent, count, events, from - 1, m - 1);
        assert known[..|known| - 1] == Known(front, count, events);
        OneMoreRetained(samples, count, events, from, m);
      } else {
        assert known[|known| - 1] == last;
        LiveIsWithin(last, count, events);
        NoneAbove(samples, count, events, from);
        MissingOne(samples, count, events, from, m);
      }
    }
  }

  lemma CountDownUnfold(known: seq<Sample>, from: int, m: nat)
    ensures CountDown(known, from, m) <==>
      m == 0
      || (known != [] && known[|known| - 1].count == from && CountDown(known[..|known| - 1], from - 1, m - 1))
  {
  }

  lemma NothingKnown(count: nat, events: set<EventId>, from: int)
    ensures Known([], count, events) == [] && !Retained([], count, events, from)
  {
  }

  lemma KnownUnfold(samples: seq<Sample>, count: nat, events: set<EventId>)
    requires samples != []
    ensures var n := |samples| - 1;
      Known(samples, count, events) ==
        if Live(samples[n], count, events) then Known(samples[..n], count, events) + [samples[n]]
        else Known(samples[..n], count, events)
  {
    assert Known(samples[..|samples| - 1], count, events) + [] == Known(samples[..|samples| - 1], count, events);
  }

  lemma LiveIsWithin(s: Sample, count: nat, events: set<EventId>)
    requires Live(s, count, events)
    ensures s.count <= count
  {
  }

  lemma FrontIsBelow(samples: seq<Sample>, agent: AgentId)
    requires Chained(samples, agent) && samples != []
    ensures Chained(samples[..|samples| - 1], agent)
    ensures forall i | 0 <= i < |samples| - 1 :: samples[i].count < samples[|samples| - 1].count
    ensures |samples| > 1 ==> samples[|samples| - 2].count + 1 == samples[|samples| - 1].count
  {
    var n := |samples| - 1;
    forall i | 0 <= i < n
      ensures samples[i].count < samples[n].count
    {
      CountsRunOn(samples, agent, i, n);
    }
    if n > 0 {
      assert Follows(samples[n - 1], samples[n]);
    }
  }

  lemma NoneToRetain(samples: seq<Sample>, count: nat, events: set<EventId>, from: int)
    ensures AllRetained(samples, count, events, from, 0)
  {
  }

  lemma MissingOne(samples: seq<Sample>, count: nat, events: set<EventId>, from: int, m: nat)
    requires m > 0 && !Retained(samples, count, events, from)
    ensures !AllRetained(samples, count, events, from, m)
  {
  }

  lemma NoneAbove(samples: seq<Sample>, count: nat, events: set<EventId>, from: int)
    requires samples != [] && samples[|samples| - 1].count < from
    requires forall i | 0 <= i < |samples| - 1 :: samples[i].count < samples[|samples| - 1].count
    ensures !Retained(samples, count, events, from)
  {
  }

  lemma SameRetained(samples: seq<Sample>, count: nat, events: set<EventId>, from: int, m: nat)
    requires samples != [] && !Live(samples[|samples| - 1], count, events)
    ensures AllRetained(samples, count, events, from, m) <==>
      AllRetained(samples[..|samples| - 1], count, events, from, m)
  {
    hide Retained;
    var front := samples[..|samples| - 1];
    if AllRetained(samples, count, events, from, m) {
      forall c | from - m < c <= from
        ensures Retained(front, count, events, c)
      {
        RetainedInFront(samples, count, events, c);
        assert Retained(samples, count, events, c);
      }
    }
    if AllRetained(front, count, events, from, m) {
      forall c | from - m < c <= from
        ensures Retained(samples, count, events, c)
      {
        RetainedInFront(samples, count, events, c);
        assert Retained(front, count, events, c);
      }
    }
  }

  lemma OneMoreRetained(samples: seq<Sample>, count: nat, events: set<EventId>, from: int, m: nat)
    requires samples != [] && m > 0 && Live(samples[|samples| - 1], count, events)
      && samples[|samples| - 1].count == from
    ensures AllRetained(samples, count, events, from, m) <==>
      AllRetained(samples[..|samples| - 1], count, events, from - 1, m - 1)
  {
    hide Retained;
    var front := samples[..|samples| - 1];
    if AllRetained(samples, count, events, from, m) {
      forall c | from - m < c <= from - 1
        ensures Retained(front, count, events, c)
      {
        RetainedInFront(samples, count, events, c);
        assert Retained(samples, count, events, c);
      }
    }
    if AllRetained(front, count, events, from - 1, m - 1) {
      forall c | from - m < c <= from
        ensures Retained(samples, count, events, c)
      {
        RetainedInFront(samples, count, events, c);
        assert c < from ==> Retained(front, count, events, c);
      }
    }
  }

  lemma RetainedInFront(samples: seq<Sample>, count: nat, events: set<EventId>, c: int)
    requires samples != []
    ensures var n := |samples| - 1;
      Retained(samples, count, events, c) <==>
        Retained(samples[..n], count, events, c) || (Live(samples[n], count, events) && samples[n].count == c)
  {
    var n := |samples| - 1;
    assert forall i | 0 <= i < n :: samples[..n][i] == samples[i];
    if i :| 0 <= i < n && Live(samples[..n][i], count, events) && samples[..n][i].count == c {
      assert Live(samples[i], count, events);
    }
  }

  lemma {:induction false} CountDownAt(known: seq<Sample>, from: int, m: nat)
    ensures CountDown(known, from, m) <==>
      m <= |known| && forall i | |known| - m <= i < |known| :: known[i].count == from - (|known| - 1 - i)
    decreases m
  {
    if m > 0 && known != [] {
      var front := known[..|known| - 1];
      CountDownAt(front, from - 1, m - 1);
      assert forall i | 0 <= i < |front| :: front[i] == known[i];
    }
  }

  datatype Summary = Summary(
    valenceTrend: Option<real>, arousalTrend: Option<real>, historyLength: nat, sampleCount: nat,
    complete: bool, current: bool)

  function Recent(known: seq<Sample>): (r: seq<Sample>)
    ensures |r| <= TREND && |r| <= |known|
  {
    var n := if |known| <= TREND then |known| else TREND;
    seq(n, i requires 0 <= i < n => known[|known| - 1 - i])
  }

  function Value(f: Float): real { if f.Finite? then f.value else 0.0 }

  function SumOf(samples: seq<Sample>, felt: Sample -> Float): real {
    if samples == [] then 0.0 else Value(felt(samples[0])) + SumOf(samples[1..], felt)
  }

  function Trend(recent: seq<Sample>, current: bool, felt: Sample -> Float): Option<real> {
    if recent == [] || !current then None else Some(SumOf(recent, felt) / (|recent| as real))
  }

  predicate Current(recent: seq<Sample>, count: nat, state: Hash) {
    recent != [] && recent[0].count == count && recent[0].state == state
  }

  predicate Contiguous(recent: seq<Sample>, count: nat) {
    forall k | 0 <= k < |recent| :: recent[k].count == if k <= count then count - k else 0
  }

  /** `summary`, for an agent's window. */
  function Summarized(samples: seq<Sample>, count: nat, events: set<EventId>, state: Hash): Summary {
    var known := Known(samples, count, events);
    var recent := Recent(known);
    var current := Current(recent, count, state);
    Summary(Trend(recent, current, (s: Sample) => s.valence),
            Trend(recent, current, (s: Sample) => s.arousal),
            |known|, |recent|, current && Contiguous(recent, count) && |recent| == TREND, current)
  }

  lemma ContiguousIsCountDown(known: seq<Sample>, count: nat)
    requires |Recent(known)| == TREND && forall k | 0 <= k < |known| :: known[k].count >= 1
    ensures Contiguous(Recent(known), count) <==> CountDown(known, count, TREND)
  {
    var recent := Recent(known);
    CountDownAt(known, count, TREND);
    if Contiguous(recent, count) {
      forall i | |known| - TREND <= i < |known|
        ensures known[i].count == count - (|known| - 1 - i)
      {
        assert recent[|known| - 1 - i] == known[i];
      }
    }
    if CountDown(known, count, TREND) {
      forall k | 0 <= k < |recent|
        ensures recent[k].count == count - k
      {
        assert recent[k] == known[|known| - 1 - k];
      }
    }
  }

  /** A trend window is complete exactly when a live sample is retained for each
      of the last ten counts and the newest carries the current state. */
  lemma CompleteExactly(samples: seq<Sample>, agent: AgentId, count: nat, events: set<EventId>, state: Hash)
    requires Chained(samples, agent)
    ensures Summarized(samples, count, events, state).complete <==>
      AllRetained(samples, count, events, count, TREND) && NewestCarries(samples, count, events, state)
  {
    hide Known, AllRetained, CountDown, Contiguous;
    var known := Known(samples, count, events);
    var recent := Recent(known);
    CountDownExactly(samples, agent, count, events, count, TREND);
    KnownIsRetained(samples, count, events);
    CountDownAt(known, count, TREND);
    if |recent| == TREND {
      forall k | 0 <= k < |known|
        ensures known[k].count >= 1
      {
        assert KnownAt(samples, known[k], count, events);
      }
      ContiguousIsCountDown(known, count);
      assert KnownAt(samples, known[|known| - 1], count, events);
      if CountDown(known, count, TREND) {
        assert recent[0] == known[|known| - 1];
        var i :| 0 <= i < |samples| && samples[i] == recent[0] && Live(samples[i], count, events);
        OnePerCount(samples, agent, i);
      }
    }
  }

  ghost predicate NewestCarries(samples: seq<Sample>, count: nat, events: set<EventId>, state: Hash) {
    exists i | 0 <= i < |samples| ::
      Live(samples[i], count, events) && samples[i].count == count && samples[i].state == state
  }

  lemma OnePerCount(samples: seq<Sample>, agent: AgentId, i: nat)
    requires Chained(samples, agent) && i < |samples|
    ensures forall j | 0 <= j < |samples| && samples[j].count == samples[i].count :: j == i
  {
    forall j | 0 <= j < |samples| && samples[j].count == samples[i].count
      ensures j == i
    {
      if i <= j {
        CountsRunOn(samples, agent, i, j);
      } else {
        CountsRunOn(samples, agent, j, i);
      }
    }
  }

  ghost predicate KnownAt(samples: seq<Sample>, s: Sample, count: nat, events: set<EventId>) {
    exists i | 0 <= i < |samples| :: samples[i] == s && Live(samples[i], count, events)
  }

  lemma {:induction false} KnownIsRetained(samples: seq<Sample>, count: nat, events: set<EventId>)
    ensures forall k | 0 <= k < |Known(samples, count, events)| ::
      KnownAt(samples, Known(samples, count, events)[k], count, events)
    decreases |samples|
  {
    if samples != [] {
      var n := |samples| - 1;
      var front := samples[..n];
      KnownIsRetained(front, count, events);
      forall k | 0 <= k < |Known(samples, count, events)|
        ensures KnownAt(samples, Known(samples, count, events)[k], count, events)
      {
        if k < |Known(front, count, events)| {
          assert KnownAt(front, Known(front, count, events)[k], count, events);
          var i :| 0 <= i < n && front[i] == Known(front, count, events)[k] && Live(front[i], count, events);
          assert samples[i] == front[i];
        } else {
          assert samples[n] == Known(samples, count, events)[k];
        }
      }
    }
  }

  // ----- What a window and its summary say, in the samples' fields -----

  /** What a valid sample makes of a window: one already known changes nothing, one
      that does not succeed the last starts afresh, and any other joins, the oldest
      giving way. */
  ghost predicate Admits(samples: seq<Sample>, s: Sample, after: seq<Sample>) {
    var known := exists i ::
      && 0 <= i < |samples| && samples[i].count == s.count && samples[i].event == s.event
      && samples[i].state == s.state && samples[i].valence == s.valence && samples[i].arousal == s.arousal;
    var joins := samples == []
      || (samples[|samples| - 1].state == s.predecessor && samples[|samples| - 1].count == s.count - 1
          && s.count <= U64_MAX);
    && (known ==> after == samples)
    && (!known && !joins ==> after == [s])
    && (!known && joins && |samples| < 100 ==> after == samples + [s])
    && (!known && joins && |samples| == 100 ==> after == samples[1..] + [s])
  }

  lemma ExtendedExactly(samples: seq<Sample>, s: Sample)
    requires |samples| <= WINDOW
    ensures Admits(samples, s, Extended(samples, s))
  {
  }

  /** The samples up to a count whose events still live, oldest first. */
  ghost predicate LiveOnes(samples: seq<Sample>, count: nat, events: set<EventId>, known: seq<Sample>) {
    && (forall s :: s in known <==> s in samples && s.count <= count && s.event in events)
    && forall i, j | 0 <= i < j < |known| :: known[i].count < known[j].count
  }

  lemma {:induction false} KnownExactly(samples: seq<Sample>, agent: AgentId, count: nat, events: set<EventId>)
    requires Chained(samples, agent)
    ensures LiveOnes(samples, count, events, Known(samples, count, events))
    decreases |samples|
  {
    hide Chained;
    if samples != [] {
      var n := |samples| - 1;
      FrontIsBelow(samples, agent);
      KnownExactly(samples[..n], agent, count, events);
      assert samples == samples[..n] + [samples[n]];
      var front := Known(samples[..n], count, events);
      forall i | 0 <= i < |front|
        ensures front[i].count < samples[n].count
      {
        assert front[i] in front;
      }
    }
  }

  ghost function FeltTotal(samples: seq<Sample>, felt: Sample -> Float): real {
    if samples == [] then 0.0
    else
      var last := felt(samples[|samples| - 1]);
      FeltTotal(samples[..|samples| - 1], felt) + match last case Finite(x) => x case NonFinite => 0.0
  }

  /** A trend is the mean of the latest live samples, and is told only of a current window. */
  ghost predicate IsTrend(latest: seq<Sample>, current: bool, felt: Sample -> Float, trend: Option<real>) {
    && (trend.Some? <==> current)
    && (trend.Some? ==> trend.value * (|latest| as real) == FeltTotal(latest, felt))
  }

  ghost predicate Reports(samples: seq<Sample>, count: nat, events: set<EventId>, state: Hash, summary: Summary) {
    exists known :: LiveOnes(samples, count, events, known) && ReportsOn(known, count, state, summary)
  }

  ghost predicate ReportsOn(known: seq<Sample>, count: nat, state: Hash, summary: Summary) {
    var n := summary.sampleCount;
    && summary.historyLength == |known| && n == (if |known| < 10 then |known| else 10)
    && (summary.current <==>
          known != [] && known[|known| - 1].count == count && known[|known| - 1].state == state)
    && IsTrend(known[|known| - n..], summary.current, (s: Sample) => s.valence, summary.valenceTrend)
    && IsTrend(known[|known| - n..], summary.current, (s: Sample) => s.arousal, summary.arousalTrend)
  }

  lemma {:induction false} SumIsTotal(recent: seq<Sample>, latest: seq<Sample>, felt: Sample -> Float)
    requires |recent| == |latest| && forall k | 0 <= k < |recent| :: recent[k] == latest[|latest| - 1 - k]
    ensures SumOf(recent, felt) == FeltTotal(latest, felt)
    decreases |recent|
  {
    if recent != [] {
      SumIsTotal(recent[1..], latest[..|latest| - 1], felt);
    }
  }

  lemma TrendExactly(known: seq<Sample>, current: bool, felt: Sample -> Float)
    requires current ==> known != []
    ensures IsTrend(known[|known| - |Recent(known)|..], current, felt,
                    Trend(Recent(known), current, felt))
  {
    SumIsTotal(Recent(known), known[|known| - |Recent(known)|..], felt);
    hide SumOf, FeltTotal;
    if current {
      MeanTimes(SumOf(Recent(known), felt), |Recent(known)| as real);
    }
  }

  lemma MeanTimes(total: real, count: real)
    requires count != 0.0
    ensures total / count * count == total
  {
  }

  lemma SummaryExactly(samples: seq<Sample>, agent: AgentId, count: nat, events: set<EventId>, state: Hash)
    requires Chained(samples, agent)
    ensures Reports(samples, count, events, state, Summarized(samples, count, events, state))
  {
    hide Chained, LiveOnes, IsTrend, Trend, Contiguous;
    var known := Known(samples, count, events);
    var current := Current(Recent(known), count, state);
    KnownExactly(samples, agent, count, events);
    TrendExactly(known, current, (s: Sample) => s.valence);
    TrendExactly(known, current, (s: Sample) => s.arousal);
    assert ReportsOn(known, count, state, Summarized(samples, count, events, state));
  }

  // ----- The mutable history -----

  class DiagnosticHistory {
    const schema: nat
    var agents: map<AgentId, seq<Sample>>

    ghost predicate Valid()
      reads this
    {
      AllChained(agents)
    }

    constructor (schema: nat)
      ensures Valid() && agents == map[] && this.schema == schema
    {
      this.schema, agents := schema, map[];
    }

    /** One sample: skipped if known, starting afresh if it does not follow, and
        never more than a hundred kept. */
    method AddOne(s: Sample)
      modifies this`agents
      ensures agents == old(agents)[s.agent := Extended(WindowOf(old(agents), s.agent), s)]
    {
      hide Same, Follows;
      var samples := WindowOf(agents, s.agent);
      if exists i | 0 <= i < |samples| :: Same(samples[i], s) {
        agents := agents[s.agent := samples];
        return;
      }
      if samples != [] && !Follows(samples[|samples| - 1], s) {
        samples := [];
        assert samples + [s] == [s];
      }
      samples := PopFront(samples + [s]);
      agents := agents[s.agent := samples];
    }

    /** Drop the oldest samples beyond the window. */
    static method PopFront(all: seq<Sample>) returns (samples: seq<Sample>)
      ensures samples == Capped(all)
    {
      samples := all;
      while |samples| > WINDOW
        invariant |samples| <= |all| && samples == all[|all| - |samples|..]
        invariant |all| >= WINDOW ==> |samples| >= WINDOW
        invariant |all| < WINDOW ==> samples == all
      {
        samples := samples[1..];
      }
    }

    /** A batch is taken up to its first invalid sample; what came before stays. */
    method Add(observations: seq<Sample>) returns (r: Result<()>, ghost taken: nat)
      requires Valid()
      modifies this`agents
      ensures Valid() && taken <= |observations|
      ensures agents == WindowsAfter(old(agents), observations, taken)
      ensures forall i | 0 <= i < taken :: Usable(observations[i])
      ensures schema != 1 ==> r.Err? && taken == 0
      ensures r.Ok? <==> schema == 1 && taken == |observations|
      ensures schema == 1 && taken < |observations| ==> !Usable(observations[taken])
    {
      taken := 0;
      if schema != 1 {
        return Err("unsupported schema"), 0;
      }
      var i := 0;
      while i < |observations|
        invariant 0 <= i <= |observations| && taken == i
        invariant agents == WindowsAfter(old(agents), observations, i) && AllChained(agents)
        invariant forall k | 0 <= k < i :: Usable(observations[k])
      {
        var s := observations[i];
        if s.count == 0 || !s.valence.Finite? || !s.arousal.Finite? {
          return Err("invalid diagnostic feeling sample"), taken;
        }
        AddOne(s);
        i := i + 1;
        taken := i;
        EveryWindowIsChained(old(agents), observations, i);
      }
      r := Ok(());
    }

    /** `summary`. */
    method Summarize(agent: AgentId, count: nat, events: set<EventId>, state: Hash) returns (r: Result<Summary>)
      requires Valid()
      ensures schema != 1 ==> r.Err?
      ensures schema == 1 ==> r == Ok(Summarized(WindowOf(agents, agent), count, events, state))
      ensures r.Ok? ==> Reports(WindowOf(agents, agent), count, events, state, r.value)
      ensures r.Ok? ==> (r.value.complete <==>
        AllRetained(WindowOf(agents, agent), count, events, count, TREND)
          && NewestCarries(WindowOf(agents, agent), count, events, state))
    {
      if schema != 1 {
        return Err("unsupported schema");
      }
      hide Reports, Summarized;
      CompleteExactly(WindowOf(agents, agent), agent, count, events, state);
      SummaryExactly(WindowOf(agents, agent), agent, count, events, state);
      r := Ok(Summarized(WindowOf(agents, agent), count, events, state));
    }
  }
}

/** Calls behind a breaker channel, each with an identity: its position in the run.
    A report names the call it answers, if it answers one at all; the channel
    itself never learns which, and a call may be reported more than once. */
module BreakerCalls {
  import opened Collections
  import opened Breaker

  datatype Outcome = Succeeded | Failing | Abandoned

  datatype Event = Ask(now: nat) | Report(now: nat, call: Option<nat>, outcome: Outcome) | Restart(now: nat)

  /** What the channel sees of an event. */
  function Seen(e: Event): Op {
    match e
    case Ask(now) => Allow(now)
    case Report(now, _, Succeeded) => Success
    case Report(now, _, Failing) => Failure(now)
    case Report(now, _, Abandoned) => Cancelled(now)
    case Restart(_) => Reset
  }

  function AllSeen(run: seq<Event>): (r: seq<Op>)
    ensures |r| == |run|
  {
    seq(|run|, i requires 0 <= i < |run| => Seen(run[i]))
  }

  function Reached(c: Snapshot, run: seq<Event>): Snapshot { After(c, AllSeen(run)) }

  lemma ReachedMore(c: Snapshot, run: seq<Event>, e: Event)
    ensures Reached(c, run + [e]) == Next(Reached(c, run), Seen(e))
  {
    AfterSnoc(c, AllSeen(run + [e]));
    assert AllSeen(run + [e])[..|run|] == AllSeen(run);
  }

  lemma NothingReached(c: Snapshot)
    ensures Reached(c, []) == c
  {
  }

  lemma ReachedIsSound(c: Snapshot, run: seq<Event>)
    requires Sound(c)
    ensures Sound(Reached(c, run))
  {
    EveryRunIsSound(c, AllSeen(run));
  }

  /** The `i`th event asked and was granted. */
  predicate Granted(c: Snapshot, run: seq<Event>, i: nat) {
    i < |run| && run[i].Ask? && Available(Reached(c, run[..i]), run[i].now)
  }

  /** It was granted although the channel was not closed. */
  predicate Probes(c: Snapshot, run: seq<Event>, i: nat) {
    Granted(c, run, i) && Reached(c, run[..i]).state != Closed
  }

  predicate Answers(run: seq<Event>, k: nat, i: nat) { k < |run| && run[k].Report? && run[k].call == Some(i) }

  predicate Answered(run: seq<Event>, i: nat) {
    exists k | 0 <= k < |run| :: Answers(run, k, i)
  }

  /** Calls granted while not closed that no report has answered. */
  function InFlight(c: Snapshot, run: seq<Event>): set<nat> {
    set i: nat | i < |run| && Probes(c, run, i) && !Answered(run, i)
  }

  /** The call now probing: the latest granted while not closed. */
  predicate IsProbe(c: Snapshot, run: seq<Event>, p: nat) {
    Probes(c, run, p) && forall i: nat | p < i < |run| :: !Probes(c, run, i)
  }

  /** A report that answers a call answers one granted earlier, and time does not run backwards. */
  predicate LegalAt(c: Snapshot, run: seq<Event>, k: nat)
    requires k < |run|
  {
    && (k > 0 ==> run[k - 1].now <= run[k].now)
    && (run[k].Report? && run[k].call.Some? ==> Granted(c, run[..k], run[k].call.value))
  }

  predicate Legal(c: Snapshot, run: seq<Event>) {
    forall k: nat | k < |run| :: LegalAt(c, run, k)
  }

  /** While half open, a reset or a report that does not answer the probe. */
  predicate Disturbs(c: Snapshot, run: seq<Event>, k: nat)
    requires k < |run|
  {
    && Reached(c, run[..k]).state == HalfOpen
    && (run[k].Restart? || (run[k].Report? && !AnswersProbe(c, run[..k], run[k].call)))
  }

  predicate AnswersProbe(c: Snapshot, run: seq<Event>, call: Option<nat>) { call.Some? && IsProbe(c, run, call.value) }

  function Named(e: Event): set<nat> { if e.Report? && e.call.Some? then {e.call.value} else {} }

  /** From event `from` on, nothing disturbs a probe. */
  predicate OrderlyFrom(c: Snapshot, run: seq<Event>, from: nat) {
    forall k: nat | from <= k < |run| :: !Disturbs(c, run, k)
  }

  // ----- One more event -----

  lemma ProbesEarlier(c: Snapshot, run: seq<Event>, e: Event, i: nat)
    requires i < |run|
    ensures Granted(c, run + [e], i) == Granted(c, run, i) && Probes(c, run + [e], i) == Probes(c, run, i)
  {
    assert (run + [e])[..i] == run[..i];
  }

  lemma ProbesNow(c: Snapshot, run: seq<Event>, e: Event)
    ensures Granted(c, run + [e], |run|) <==> e.Ask? && Available(Reached(c, run), e.now)
    ensures Probes(c, run + [e], |run|) <==>
      e.Ask? && Available(Reached(c, run), e.now) && Reached(c, run).state != Closed
  {
    assert (run + [e])[..|run|] == run;
  }

  lemma AnsweredMore(run: seq<Event>, e: Event, i: nat)
    ensures Answered(run + [e], i) <==> Answered(run, i) || i in Named(e)
  {
    var more := run + [e];
    if Answered(run, i) {
      var k :| 0 <= k < |run| && Answers(run, k, i);
      assert Answers(more, k, i);
    }
    if i in Named(e) {
      assert Answers(more, |run|, i);
    }
    if Answered(more, i) {
      var k :| 0 <= k < |more| && Answers(more, k, i);
      assert k < |run| ==> Answers(run, k, i);
    }
  }

  lemma LegalFront(c: Snapshot, run: seq<Event>, e: Event)
    requires Legal(c, run + [e])
    ensures Legal(c, run)
    ensures run != [] ==> run[|run| - 1].now <= e.now
    ensures forall i | i in Named(e) :: Granted(c, run, i)
  {
    var more := run + [e];
    forall k: nat | k < |run|
      ensures LegalAt(c, run, k)
    {
      assert more[..k] == run[..k] && LegalAt(c, more, k);
    }
    assert more[..|run|] == run && LegalAt(c, more, |run|);
  }

  lemma LegalMore(c: Snapshot, run: seq<Event>, e: Event)
    requires Legal(c, run) && (run != [] ==> run[|run| - 1].now <= e.now)
    requires forall i | i in Named(e) :: Granted(c, run, i)
    ensures Legal(c, run + [e])
  {
    var more := run + [e];
    forall k: nat | k < |more|
      ensures LegalAt(c, more, k)
    {
      if k < |run| {
        assert more[..k] == run[..k] && LegalAt(c, run, k);
      } else {
        assert more[..k] == run;
      }
    }
  }

  lemma OrderlyMore(c: Snapshot, run: seq<Event>, e: Event, from: nat)
    ensures OrderlyFrom(c, run + [e], from) <==>
      OrderlyFrom(c, run, from) && (from <= |run| ==> !Disturbs(c, run + [e], |run|))
  {
    var more := run + [e];
    forall k: nat | k < |run|
      ensures Disturbs(c, more, k) == Disturbs(c, run, k)
    {
      assert more[..k] == run[..k];
    }
    if OrderlyFrom(c, more, from) {
      forall k: nat | from <= k < |run|
        ensures !Disturbs(c, run, k)
      {
        assert !Disturbs(c, more, k);
      }
    }
  }

  /** What one more event does to the calls in flight. */
  lemma InFlightMore(c: Snapshot, run: seq<Event>, e: Event)
    requires forall i | i in Named(e) :: i < |run|
    requires !Answered(run, |run|)
    ensures InFlight(c, run + [e]) ==
      InFlight(c, run) - Named(e) + (if Probes(c, run + [e], |run|) then {|run|} else {})
  {
    var more := run + [e];
    forall i: nat | i < |more|
      ensures i in InFlight(c, more) <==>
        i in InFlight(c, run) - Named(e) + (if Probes(c, more, |run|) then {|run|} else {})
    {
      AnsweredMore(run, e, i);
      if i < |run| {
        ProbesEarlier(c, run, e, i);
      }
    }
  }

  lemma AnswersAreEarlier(c: Snapshot, run: seq<Event>, i: nat)
    requires Legal(c, run) && i >= |run|
    ensures !Answered(run, i)
  {
    forall k | 0 <= k < |run|
      ensures !Answers(run, k, i)
    {
      assert LegalAt(c, run, k);
    }
  }

  lemma ProbeMore(c: Snapshot, run: seq<Event>, e: Event, p: nat)
    requires IsProbe(c, run, p) && !Probes(c, run + [e], |run|)
    ensures IsProbe(c, run + [e], p)
  {
    ProbesEarlier(c, run, e, p);
    forall i: nat | p < i < |run + [e]|
      ensures !Probes(c, run + [e], i)
    {
      if i < |run| {
        ProbesEarlier(c, run, e, i);
      }
    }
  }

  // ----- At most one call in flight -----

  /** In a run where nothing disturbs a probe, the calls in flight are the probe
      alone while half open, and none otherwise. */
  lemma {:induction false} OneProbe(c: Snapshot, run: seq<Event>)
    requires Sound(c) && c.state == Closed && Legal(c, run) && OrderlyFrom(c, run, 0)
    ensures Reached(c, run).state == HalfOpen ==> exists p: nat :: IsProbe(c, run, p) && InFlight(c, run) == {p}
    ensures Reached(c, run).state != HalfOpen ==> InFlight(c, run) == {}
    ensures |InFlight(c, run)| <= 1
    decreases |run|
  {
    if run == [] {
      NothingReached(c);
    } else {
      var front, e := run[..|run| - 1], run[|run| - 1];
      assert run == front + [e];
      LegalFront(c, front, e);
      OrderlyMore(c, front, e, 0);
      OneProbe(c, front);
      OneMore(c, front, e);
    }
  }

  lemma OneMore(c: Snapshot, run: seq<Event>, e: Event)
    requires Sound(c) && Legal(c, run) && Legal(c, run + [e]) && !Disturbs(c, run + [e], |run|)
    requires Reached(c, run).state == HalfOpen ==> exists p: nat :: IsProbe(c, run, p) && InFlight(c, run) == {p}
    requires Reached(c, run).state != HalfOpen ==> InFlight(c, run) == {}
    ensures Reached(c, run + [e]).state == HalfOpen ==>
      exists p: nat :: IsProbe(c, run + [e], p) && InFlight(c, run + [e]) == {p}
    ensures Reached(c, run + [e]).state != HalfOpen ==> InFlight(c, run + [e]) == {}
  {
    hide InFlight, Answered, Legal, Probes, IsProbe, Reached, Granted;
    DisturbsNow(c, run, e);
    LegalFront(c, run, e);
    AnswersAreEarlier(c, run, |run|);
    NamedEarlier(c, run, e);
    InFlightMore(c, run, e);
    ReachedMore(c, run, e);
    ReachedIsSound(c, run);
    ProbesNow(c, run, e);
    if Probes(c, run + [e], |run|) {
      LatestIsProbe(c, run, e);
      assert InFlight(c, run + [e]) == {|run|};
    } else if Reached(c, run).state == HalfOpen {
      var p: nat :| IsProbe(c, run, p) && InFlight(c, run) == {p};
      ProbeMore(c, run, e, p);
      if e.Report? && AnswersProbe(c, run, e.call) { ProbeIsUnique(c, run, p, e.call.value); }
    }
  }

  lemma DisturbsNow(c: Snapshot, run: seq<Event>, e: Event)
    ensures Disturbs(c, run + [e], |run|) <==>
      (Reached(c, run).state == HalfOpen && (e.Restart? || (e.Report? && !AnswersProbe(c, run, e.call))))
  {
    assert (run + [e])[..|run|] == run;
  }

  lemma NamedEarlier(c: Snapshot, run: seq<Event>, e: Event)
    requires forall i | i in Named(e) :: Granted(c, run, i)
    ensures forall i | i in Named(e) :: i < |run|
  {
  }

  lemma LatestIsProbe(c: Snapshot, run: seq<Event>, e: Event)
    requires Probes(c, run + [e], |run|)
    ensures IsProbe(c, run + [e], |run|)
  {
  }

  lemma ProbeIsUnique(c: Snapshot, run: seq<Event>, p: nat, q: nat)
    requires IsProbe(c, run, p) && IsProbe(c, run, q)
    ensures p == q
  {
    assert p < q ==> !Probes(c, run, q);
    assert q < p ==> !Probes(c, run, p);
  }

  // ----- Exactly the undisturbed runs -----

  /** A way a run may go on without disturbing a probe any further. */
  predicate Continues(c: Snapshot, run: seq<Event>, more: seq<Event>) {
    Legal(c, run + more) && OrderlyFrom(c, run + more, |run|)
  }

  lemma ContinuesMore(c: Snapshot, run: seq<Event>, more: seq<Event>, e: Event)
    requires Continues(c, run, more) && run + more != [] && (run + more)[|run + more| - 1].now <= e.now
    requires forall i | i in Named(e) :: Granted(c, run + more, i)
    requires Reached(c, run + more).state != HalfOpen
    ensures Continues(c, run, more + [e]) && run + (more + [e]) == run + more + [e]
  {
    hide Legal, OrderlyFrom, Reached, Granted, Answered, IsProbe;
    assert run + (more + [e]) == run + more + [e];
    LegalMore(c, run + more, e);
    DisturbsNow(c, run + more, e);
    OrderlyMore(c, run + more, e, |run|);
  }

  /** A call never answered stays in flight through events that do not answer it. */
  lemma StaysInFlight(c: Snapshot, run: seq<Event>, e: Event, p: nat)
    requires Legal(c, run) && Legal(c, run + [e]) && p in InFlight(c, run) && p !in Named(e)
    ensures p in InFlight(c, run + [e])
    ensures Probes(c, run + [e], |run|) ==> |run| in InFlight(c, run + [e]) && p != |run|
  {
    hide Legal, Granted, Answered, Probes;
    LegalFront(c, run, e);
    AnswersAreEarlier(c, run, |run|);
    NamedEarlier(c, run, e);
    InFlightMore(c, run, e);
  }

  /** A run standing at time `now`, with `p` still in flight and the channel not half open. */
  predicate Waiting(c: Snapshot, run: seq<Event>, more: seq<Event>, p: nat, now: nat) {
    && Continues(c, run, more) && run + more != [] && (run + more)[|run + more| - 1].now == now
    && p in InFlight(c, run + more) && Reached(c, run + more).state != HalfOpen
    && (Reached(c, run + more).state == Open ==> Reached(c, run + more).lastFailure == Some(now))
  }

  /** One more call that fails at once. */
  lemma FailOnce(c: Snapshot, run: seq<Event>, more: seq<Event>, p: nat, now: nat) returns (longer: seq<Event>)
    requires Sound(c) && Waiting(c, run, more, p, now) && Reached(c, run + more).state == Closed
    ensures Waiting(c, run, longer, p, now)
    ensures Reached(c, run + longer) == Failed(Reached(c, run + more), now)
  {
    hide InFlight, Legal, OrderlyFrom, Reached, Granted, Answered, IsProbe, Probes;
    var all, ask, fail := run + more, Ask(now), Report(now, Some(|run + more|), Failing);
    ReachedMore(c, all, ask);
    ProbesNow(c, all, ask);
    ContinuesMore(c, run, more, ask);
    StaysInFlight(c, all, ask, p);
    InFlightIsEarlier(c, all, p);
    AnswersAreEarlier(c, all, |all|);
    AnsweredMore(all, ask, |all|);
    ReachedMore(c, all + [ask], fail);
    ContinuesMore(c, run, more + [ask], fail);
    StaysInFlight(c, all + [ask], fail, p);
    longer := more + [ask] + [fail];
  }

  lemma InFlightIsEarlier(c: Snapshot, run: seq<Event>, p: nat)
    requires p in InFlight(c, run)
    ensures p < |run|
  {
  }

  /** Enough failures trip the channel while `p` is still in flight. */
  lemma {:induction false} Trip(c: Snapshot, run: seq<Event>, more: seq<Event>, p: nat, now: nat)
    returns (longer: seq<Event>)
    requires Sound(c) && Waiting(c, run, more, p, now)
    ensures Waiting(c, run, longer, p, now) && Reached(c, run + longer).state == Open
    ensures Reached(c, run + longer).cooldown == Reached(c, run + more).cooldown
    decreases Reached(c, run + more).maximum - Reached(c, run + more).failures
  {
    hide Waiting, Reached;
    StateWhileWaiting(c, run, more, p, now);
    longer := more;
    if Reached(c, run + more).state == Closed {
      ReachedIsSound(c, run + more);
      longer := FailOnce(c, run, more, p, now);
      longer := Trip(c, run, longer, p, now);
    }
  }

  lemma StateWhileWaiting(c: Snapshot, run: seq<Event>, more: seq<Event>, p: nat, now: nat)
    requires Waiting(c, run, more, p, now)
    ensures Reached(c, run + more).state != HalfOpen
  {
  }

  /** Once tripped, the cooldown brings a second call. */
  lemma SecondCall(c: Snapshot, run: seq<Event>, more: seq<Event>, p: nat, now: nat) returns (longer: seq<Event>)
    requires Waiting(c, run, more, p, now) && Reached(c, run + more).state == Open
    ensures Continues(c, run, longer) && |InFlight(c, run + longer)| >= 2
  {
    hide InFlight, Legal, OrderlyFrom, Reached, Granted, Answered, IsProbe, Probes;
    var all, ask := run + more, Ask(now + Reached(c, run + more).cooldown);
    ProbesNow(c, all, ask);
    ContinuesMore(c, run, more, ask);
    StaysInFlight(c, all, ask, p);
    longer := more + [ask];
    AtLeastTwo(InFlight(c, run + longer), p, |all|);
  }

  lemma AtLeastTwo(s: set<nat>, a: nat, b: nat)
    requires a in s && b in s && a != b
    ensures |s| >= 2
  {
    SubsetSize({a, b}, s);
  }

  /** After a disturbance the probe is forgotten but still in flight. */
  lemma Forgotten(c: Snapshot, run: seq<Event>, e: Event) returns (p: nat)
    requires Sound(c) && c.state == Closed && Legal(c, run + [e]) && OrderlyFrom(c, run, 0)
    requires Disturbs(c, run + [e], |run|)
    ensures Waiting(c, run + [e], [], p, e.now)
  {
    hide InFlight, Legal, Reached, Granted, Answered, IsProbe, Probes, OrderlyFrom;
    LegalFront(c, run, e);
    OneProbe(c, run);
    DisturbsNow(c, run, e);
    p :| IsProbe(c, run, p) && InFlight(c, run) == {p};
    StaysInFlight(c, run, e, p);
    ReachedMore(c, run, e);
    ReachedIsSound(c, run);
    assert run + [e] + [] == run + [e];
    NothingMore(c, run + [e]);
  }

  lemma NothingMore(c: Snapshot, run: seq<Event>)
    requires Legal(c, run)
    ensures Continues(c, run, [])
  {
    assert run + [] == run;
  }

  lemma OrderlyJoin(c: Snapshot, run: seq<Event>, e: Event, more: seq<Event>)
    requires OrderlyFrom(c, run, 0) && !Disturbs(c, run + [e], |run|) && Continues(c, run + [e], more)
    ensures OrderlyFrom(c, run + [e] + more, 0)
  {
    hide IsProbe, Reached;
    var all := run + [e] + more;
    forall k: nat | k < |all|
      ensures !Disturbs(c, all, k)
    {
      if k < |run| {
        assert all[..k] == run[..k] && !Disturbs(c, run, k);
      } else if k == |run| {
        assert all[..k] == run == (run + [e])[..k];
      }
    }
  }

  /** However this run goes on undisturbed, at most one call is in flight. */
  ghost predicate StaysOne(c: Snapshot, run: seq<Event>) {
    forall more | Continues(c, run, more) :: |InFlight(c, run + more)| <= 1
  }

  /** In a run undisturbed so far, the next event keeps at most one call in flight
      however the run goes on if and only if it does not disturb the probe: a
      disturbance followed by a trip and a cooldown puts a second call in flight. */
  lemma NextEventExactly(c: Snapshot, run: seq<Event>, e: Event)
    requires Sound(c) && c.state == Closed && Legal(c, run + [e]) && OrderlyFrom(c, run, 0)
    ensures StaysOne(c, run + [e]) <==> !Disturbs(c, run + [e], |run|)
  {
    hide InFlight, Legal, Reached, OrderlyFrom, Disturbs, Waiting, Continues;
    if Disturbs(c, run + [e], |run|) {
      var p := Forgotten(c, run, e);
      var more := Trip(c, run + [e], [], p, e.now);
      more := SecondCall(c, run + [e], more, p, e.now);
      assert Continues(c, run + [e], more) && |InFlight(c, run + [e] + more)| > 1;
    } else {
      forall more | Continues(c, run + [e], more)
        ensures |InFlight(c, run + [e] + more)| <= 1
      {
        OrderlyJoin(c, run, e, more);
        ContinuesLegally(c, run + [e], more);
        OneProbe(c, run + [e] + more);
      }
    }
  }

  lemma ContinuesLegally(c: Snapshot, run: seq<Event>, more: seq<Event>)
    requires Continues(c, run, more)
    ensures Legal(c, run + more)
  {
  }

  lemma NothingYet(c: Snapshot, run: seq<Event>)
    requires Sound(c) && c.state == Closed && run == []
    ensures StaysOne(c, run) && OrderlyFrom(c, run, 0)
  {
    forall more | Continues(c, run, more)
      ensures |InFlight(c, run + more)| <= 1
    {
      OneProbe(c, run + more);
    }
  }

  /** The whole run: from every point of it at most one call stays in flight if
      and only if no report answers a call other than the probe, and no reset
      comes, while half open. */
  lemma {:induction false} OneProbeExactly(c: Snapshot, run: seq<Event>)
    requires Sound(c) && c.state == Closed && Legal(c, run)
    ensures (forall k: nat | k <= |run| :: StaysOne(c, run[..k])) <==> OrderlyFrom(c, run, 0)
    decreases |run|
  {
    hide StaysOne, Legal, OrderlyFrom, Disturbs;
    if run == [] {
      NothingYet(c, run);
      assert forall k: nat | k <= |run| :: run[..k] == run;
    } else {
      var front, e := run[..|run| - 1], run[|run| - 1];
      assert run == front + [e];
      LegalFront(c, front, e);
      OneProbeExactly(c, front);
      OrderlyMore(c, front, e, 0);
      forall k: nat | k <= |front|
        ensures front[..k] == run[..k]
      {
      }
      assert run[..|run|] == run;
      if OrderlyFrom(c, front, 0) {
        NextEventExactly(c, front, e);
      } else {
        var k: nat :| k <= |front| && !StaysOne(c, front[..k]);
        assert run[..k] == front[..k];
      }
    }
  }

  // ----- A caller that waits -----

  /** The latest granted call. */
  predicate Latest(c: Snapshot, run: seq<Event>, i: nat) {
    Granted(c, run, i) && forall j: nat | i < j < |run| :: !Granted(c, run, j)
  }

  predicate AllAnswered(c: Snapshot, run: seq<Event>) {
    forall i: nat | i < |run| && Granted(c, run, i) :: Answered(run, i)
  }

  /** Nothing but reports on the latest granted call happens until it has been answered. */
  predicate PromptAt(c: Snapshot, run: seq<Event>, k: nat)
    requires k < |run|
  {
    AllAnswered(c, run[..k]) || (run[k].Report? && run[k].call.Some? && Latest(c, run[..k], run[k].call.value))
  }

  predicate Prompt(c: Snapshot, run: seq<Event>) {
    forall k: nat | k < |run| :: PromptAt(c, run, k)
  }

  lemma PromptFront(c: Snapshot, run: seq<Event>, e: Event)
    requires Prompt(c, run + [e])
    ensures Prompt(c, run)
    ensures AllAnswered(c, run) || (e.Report? && e.call.Some? && Latest(c, run, e.call.value))
  {
    hide Latest, AllAnswered;
    var more := run + [e];
    forall k: nat | k < |run|
      ensures PromptAt(c, run, k)
    {
      assert PromptAt(c, more, k) && more[..k] == run[..k];
    }
    assert PromptAt(c, more, |run|) && more[..|run|] == run;
  }

  /** A call granted before another was granted had been answered by then. */
  lemma EarlierIsAnswered(c: Snapshot, run: seq<Event>, i: nat, j: nat)
    requires Prompt(c, run) && i < j && Granted(c, run, i) && Granted(c, run, j)
    ensures Answered(run, i)
  {
    assert PromptAt(c, run, j) && run[j].Ask?;
    assert run[..j][..i] == run[..i] && Granted(c, run[..j], i);
    var k :| 0 <= k < j && Answers(run[..j], k, i);
    assert Answers(run, k, i);
  }

  /** A caller that reports each granted call, as often as it likes, before it
      does anything else with the channel never disturbs a probe, so at most one
      call is in flight. */
  lemma {:induction false} PromptCallerIsOrderly(c: Snapshot, run: seq<Event>)
    requires Sound(c) && c.state == Closed && Legal(c, run) && Prompt(c, run)
    ensures OrderlyFrom(c, run, 0) && |InFlight(c, run)| <= 1
    decreases |run|
  {
    if run != [] {
      var front, e := run[..|run| - 1], run[|run| - 1];
      assert run == front + [e];
      LegalFront(c, front, e);
      PromptFront(c, front, e);
      PromptCallerIsOrderly(c, front);
      PromptNext(c, front, e);
      OrderlyMore(c, front, e, 0);
    }
    OneProbe(c, run);
  }

  lemma PromptNext(c: Snapshot, run: seq<Event>, e: Event)
    requires Sound(c) && c.state == Closed && Legal(c, run + [e]) && Prompt(c, run) && OrderlyFrom(c, run, 0)
    requires AllAnswered(c, run) || (e.Report? && e.call.Some? && Latest(c, run, e.call.value))
    ensures !Disturbs(c, run + [e], |run|)
  {
    hide Legal, Reached, Granted, Answered, IsProbe, OrderlyFrom, Prompt;
    LegalFront(c, run, e);
    OneProbe(c, run);
    DisturbsNow(c, run, e);
    if Reached(c, run).state == HalfOpen {
      var p: nat :| IsProbe(c, run, p) && InFlight(c, run) == {p};
      assert p in InFlight(c, run);
      var call := e.call.value;
      if call > p {
        EarlierIsAnswered(c, run, p, call);
      }
      assert call == p;
    }
  }

  /** All that one more event changes. */
  lemma OneEvent(c: Snapshot, run: seq<Event>, e: Event)
    requires Legal(c, run) && (run != [] ==> run[|run| - 1].now <= e.now)
    requires forall i | i in Named(e) :: Granted(c, run, i)
    ensures Legal(c, run + [e]) && Reached(c, run + [e]) == Next(Reached(c, run), Seen(e))
    ensures forall i: nat | i < |run| :: Granted(c, run + [e], i) == Granted(c, run, i)
    ensures forall i: nat :: Answered(run + [e], i) <==> Answered(run, i) || i in Named(e)
    ensures Granted(c, run + [e], |run|) <==> e.Ask? && Available(Reached(c, run), e.now)
    ensures InFlight(c, run + [e]) == InFlight(c, run) - Named(e)
      + (if e.Ask? && Available(Reached(c, run), e.now) && Reached(c, run).state != Closed then {|run|} else {})
  {
    hide InFlight, Legal, Answered, Probes, Reached;
    LegalMore(c, run, e);
    ReachedMore(c, run, e);
    ProbesNow(c, run, e);
    AnswersAreEarlier(c, run, |run|);
    InFlightMore(c, run, e);
    forall i: nat
      ensures Answered(run + [e], i) <==> Answered(run, i) || i in Named(e)
    {
      AnsweredMore(run, e, i);
    }
    forall i: nat | i < |run|
      ensures Granted(c, run + [e], i) == Granted(c, run, i)
    {
      ProbesEarlier(c, run, e, i);
    }
  }

  /** Two calls granted before a trip, the first of which trips it, and then a probe. */
  lemma ProbeBesideOldCall(c: Snapshot) returns (run: seq<Event>)
    requires c == Fresh(1, 60)
    ensures run == [Ask(0), Ask(0), Report(1, Some(0), Failing), Ask(61)]
    ensures Legal(c, run) && Reached(c, run) == Failed(c, 1).(state := HalfOpen, probe := true)
    ensures InFlight(c, run) == {3} && Granted(c, run, 1) && !Answered(run, 1)
  {
    var none: seq<Event> := [];
    NothingReached(c);
    assert Legal(c, none) && InFlight(c, none) == {} && forall i: nat :: !Answered(none, i);
    hide Reached, InFlight, Legal, Granted, Answered, Probes;
    OneEvent(c, none, Ask(0));
    assert none + [Ask(0)] == [Ask(0)];
    OneEvent(c, [Ask(0)], Ask(0));
    run := [Ask(0), Ask(0)];
    assert [Ask(0)] + [Ask(0)] == run && Reached(c, run) == c;
    OneEvent(c, run, Report(1, Some(0), Failing));
    run := run + [Report(1, Some(0), Failing)];
    assert Reached(c, run) == Failed(c, 1);
    OneEvent(c, run, Ask(61));
    run := run + [Ask(61)];
  }

  /** Two calls really in flight: of two calls granted before the trip the second
      reports late, while the third is probing, and after a cooldown a fourth is
      granted. This is a run of the channel's interface; the program's own loop
      reports every call before it asks again. */
  lemma LateFailureFreesTheProbe() returns (run: seq<Event>)
    ensures run == [Ask(0), Ask(0), Report(1, Some(0), Failing), Ask(61), Report(62, Some(1), Failing), Ask(122)]
    ensures Legal(Fresh(1, 60), run) && InFlight(Fresh(1, 60), run) == {3, 5}
  {
    var c := Fresh(1, 60);
    hide Reached, InFlight, Legal, Granted, Answered, Probes;
    run := ProbeBesideOldCall(c);
    OneEvent(c, run, Report(62, Some(1), Failing));
    run := run + [Report(62, Some(1), Failing)];
    OneEvent(c, run, Ask(122));
    run := run + [Ask(122)];
  }
}

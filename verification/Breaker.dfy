/** The circuit breaker in front of the model, the feeling channel and the
    memory: one state machine per channel. Times are ticks of a monotone clock. */
module Breaker {
  import opened Collections

  datatype BreakerState = Closed | Open | HalfOpen

  datatype Snapshot = Snapshot(
    state: BreakerState, failures: nat, maximum: nat, total: nat, cooldown: nat, lastFailure: Option<nat>, probe: bool)

  datatype Op = Allow(now: nat) | Success | Failure(now: nat) | Cancelled(now: nat) | Reset

  function Fresh(maximum: nat, cooldown: nat): Snapshot { Snapshot(Closed, 0, maximum, 0, cooldown, None, false) }

  function Saturating(n: nat, limit: nat): nat { if n < limit then n + 1 else limit }

  predicate CooledDown(c: Snapshot, now: nat) {
    c.lastFailure.Some? && now >= c.lastFailure.value && now - c.lastFailure.value >= c.cooldown
  }

  predicate Available(c: Snapshot, now: nat) {
    match c.state
    case Closed => true
    case Open => CooledDown(c, now)
    case HalfOpen => !c.probe
  }

  function Closing(c: Snapshot): Snapshot { c.(state := Closed, failures := 0, lastFailure := None, probe := false) }

  function Failed(c: Snapshot, now: nat): Snapshot {
    var failures := Saturating(c.failures, U32_MAX);
    c.(failures := failures, total := Saturating(c.total, U64_MAX), lastFailure := Some(now), probe := false,
       state := if c.state == HalfOpen || failures >= c.maximum then Open else c.state)
  }

  /** The state after a call. */
  function Next(c: Snapshot, op: Op): Snapshot {
    match op
    case Allow(now) => if c.state != Closed && Available(c, now) then c.(state := HalfOpen, probe := true) else c
    case Success => Closing(c)
    case Failure(now) => Failed(c, now)
    case Cancelled(now) =>
      if c.state == HalfOpen && c.probe then c.(state := Open, lastFailure := Some(now), probe := false) else c
    case Reset => Closing(c)
  }

  // ----- The mutable channel -----

  class Channel {
    var state: BreakerState
    var consecutiveFailures: nat
    const maximumFailures: nat
    var totalFailures: nat
    const cooldown: nat
    var lastFailure: Option<nat>
    var probeInFlight: bool

    function Status(): Snapshot
      reads this
    {
      Snapshot(state, consecutiveFailures, maximumFailures, totalFailures, cooldown, lastFailure, probeInFlight)
    }

    constructor (maximum: nat, cooldown: nat)
      ensures Status() == Fresh(maximum, cooldown)
    {
      state, consecutiveFailures, maximumFailures, totalFailures := Closed, 0, maximum, 0;
      this.cooldown, lastFailure, probeInFlight := cooldown, None, false;
    }

    method Allow(now: nat) returns (granted: bool)
      modifies this
      ensures Status() == Next(old(Status()), Op.Allow(now)) && granted == Available(old(Status()), now)
    {
      match state
      case Closed =>
        granted := true;
      case Open =>
        granted := lastFailure.Some? && now >= lastFailure.value && now - lastFailure.value >= cooldown;
        if granted {
          state, probeInFlight := HalfOpen, true;
        }
      case HalfOpen =>
        granted := !probeInFlight;
        if granted {
          probeInFlight := true;
        }
    }

    method RecordSuccess()
      modifies this
      ensures Status() == Next(old(Status()), Success)
    {
      state, consecutiveFailures, lastFailure, probeInFlight := Closed, 0, None, false;
    }

    method RecordFailure(now: nat)
      modifies this
      ensures Status() == Next(old(Status()), Failure(now))
    {
      consecutiveFailures := Saturating(consecutiveFailures, U32_MAX);
      totalFailures := Saturating(totalFailures, U64_MAX);
      lastFailure, probeInFlight := Some(now), false;
      if state == HalfOpen || consecutiveFailures >= maximumFailures {
        state := Open;
      }
    }

    method RecordCancelled(now: nat)
      modifies this
      ensures Status() == Next(old(Status()), Cancelled(now))
    {
      if state == HalfOpen && probeInFlight {
        state, lastFailure, probeInFlight := Open, Some(now), false;
      }
    }

    method Restore()
      modifies this
      ensures Status() == Next(old(Status()), Reset)
    {
      state, consecutiveFailures, lastFailure, probeInFlight := Closed, 0, None, false;
    }
  }

  datatype ResilienceChannel = Llm | Thymos | Dcmdb

  /** The three channels, independent of one another. */
  class CircuitBreaker {
    const channels: map<ResilienceChannel, Channel>

    ghost predicate Valid() {
      && channels.Keys == {Llm, Thymos, Dcmdb}
      && forall a, b | a in channels && b in channels && a != b :: channels[a] != channels[b]
    }

    function Repr(): set<Channel> { channels.Values }

    ghost function Status(channel: ResilienceChannel): Snapshot
      requires channel in channels
      reads channels[channel]
    {
      channels[channel].Status()
    }

    constructor ()
      ensures Valid() && fresh(Repr())
      ensures Status(Llm) == Fresh(3, 30) && Status(Thymos) == Fresh(1, 60) && Status(Dcmdb) == Fresh(2, 30)
    {
      var llm := new Channel(3, 30);
      var thymos := new Channel(1, 60);
      var dcmdb := new Channel(2, 30);
      channels := map[Llm := llm, Thymos := thymos, Dcmdb := dcmdb];
    }

    method Allow(channel: ResilienceChannel, now: nat) returns (granted: bool)
      requires Valid()
      modifies channels[channel]
      ensures granted == Available(old(Status(channel)), now)
      ensures Status(channel) == Next(old(Status(channel)), Op.Allow(now))
      ensures forall other | other != channel && other in channels :: Status(other) == old(Status(other))
    {
      granted := channels[channel].Allow(now);
    }

    method Record(channel: ResilienceChannel, op: Op)
      requires Valid() && !op.Allow?
      modifies channels[channel]
      ensures Status(channel) == Next(old(Status(channel)), op)
      ensures forall other | other != channel && other in channels :: Status(other) == old(Status(other))
    {
      match op
      case Success => channels[channel].RecordSuccess();
      case Failure(now) => channels[channel].RecordFailure(now);
      case Cancelled(now) => channels[channel].RecordCancelled(now);
      case Reset => channels[channel].Restore();
    }

    method ResetAll()
      requires Valid()
      modifies Repr()
      ensures forall channel | channel in channels :: Status(channel) == Next(old(Status(channel)), Reset)
    {
      channels[Llm].Restore();
      channels[Thymos].Restore();
      channels[Dcmdb].Restore();
    }
  }

  // ----- Every run -----

  /** Closed means fewer consecutive failures than allowed; half open means
      exactly that a probe is in flight; open remembers when it failed. */
  predicate Sound(c: Snapshot) {
    && 1 <= c.maximum <= U32_MAX && c.failures <= U32_MAX
    && (c.state == Closed <==> c.failures < c.maximum)
    && (c.state == HalfOpen <==> c.probe)
    && (c.state != Closed ==> c.lastFailure.Some?)
  }

  function After(c: Snapshot, ops: seq<Op>): Snapshot
    decreases |ops|
  {
    if ops == [] then c else After(Next(c, ops[0]), ops[1..])
  }

  lemma {:induction false} EveryRunIsSound(c: Snapshot, ops: seq<Op>)
    requires Sound(c)
    ensures Sound(After(c, ops))
    decreases |ops|
  {
    if ops != [] {
      EveryRunIsSound(Next(c, ops[0]), ops[1..]);
    }
  }

  /** A channel that was available stays available as time passes, so a call
      allowed for after checking cannot be refused. */
  lemma AvailableStays(c: Snapshot, checked: nat, called: nat)
    requires Available(c, checked) && checked <= called
    ensures Available(c, called)
    ensures c.state != Closed ==> !Available(Next(c, Allow(called)), called)
  {
  }

  predicate Restores(op: Op) { op.Success? || op.Reset? }

  function TimeOf(op: Op, otherwise: nat): nat {
    match op
    case Allow(now) => now
    case Failure(now) => now
    case Cancelled(now) => now
    case Success => otherwise
    case Reset => otherwise
  }

  /** Times never run backwards, starting from `from`. */
  predicate InOrder(ops: seq<Op>, from: nat)
    decreases |ops|
  {
    ops == [] || (TimeOf(ops[0], from) >= from && InOrder(ops[1..], TimeOf(ops[0], from)))
  }

  lemma {:induction false} LaterInOrder(ops: seq<Op>, from: nat, i: nat)
    requires InOrder(ops, from) && i < |ops|
    ensures TimeOf(ops[i], from) >= from
    decreases |ops|
  {
    if i > 0 {
      LaterInOrder(ops[1..], TimeOf(ops[0], from), i - 1);
    }
  }

  /** After a trip, until something succeeds or is reset, every call granted
      comes at least the cooldown later. */
  lemma {:induction false} CooldownHolds(c: Snapshot, tripped: nat, from: nat, ops: seq<Op>, i: nat)
    requires Sound(c) && c.state == Open && c.lastFailure.value >= tripped && from >= tripped
    requires InOrder(ops, from) && forall k | 0 <= k < |ops| :: !Restores(ops[k])
    requires i < |ops| && ops[i].Allow? && Available(After(c, ops[..i]), ops[i].now)
    ensures ops[i].now >= tripped + c.cooldown
    decreases |ops|
  {
    if i > 0 {
      assert !Restores(ops[0]);
      var next, rest := Next(c, ops[0]), ops[1..];
      assert ops[..i][1..] == rest[..i - 1] && After(c, ops[..i]) == After(next, rest[..i - 1]);
      assert forall k | 0 <= k < |rest| :: rest[k] == ops[k + 1];
      if next.state == Open {
        CooldownHolds(next, tripped, TimeOf(ops[0], from), rest, i - 1);
      } else {
        LaterInOrder(rest, ops[0].now, i - 1);
      }
    }
  }

  lemma {:induction false} AfterSnoc(c: Snapshot, ops: seq<Op>)
    requires ops != []
    ensures After(c, ops) == Next(After(c, ops[..|ops| - 1]), ops[|ops| - 1])
    decreases |ops|
  {
    if |ops| == 1 {
      assert ops[..0] == [] && ops[1..] == [];
    } else {
      AfterSnoc(Next(c, ops[0]), ops[1..]);
      assert ops[1..][..|ops| - 2] == ops[..|ops| - 1][1..];
    }
  }

  /** The channel trips at the last allowed failure in a row and not before. */
  lemma {:induction false} TripsExactly(c: Snapshot, times: seq<nat>)
    requires Sound(c) && c.state == Closed && c.failures == 0
    ensures After(c, Failures(times)).state == Closed <==> |times| < c.maximum
    ensures After(c, Failures(times)).failures == if |times| <= U32_MAX then |times| else U32_MAX
    ensures After(c, Failures(times)).maximum == c.maximum && Sound(After(c, Failures(times)))
    decreases |times|
  {
    EveryRunIsSound(c, Failures(times));
    if times != [] {
      var front := times[..|times| - 1];
      TripsExactly(c, front);
      AfterSnoc(c, Failures(times));
      assert Failures(times)[..|times| - 1] == Failures(front);
    }
  }

  function Failures(times: seq<nat>): (r: seq<Op>)
    ensures |r| == |times|
  {
    seq(|times|, i requires 0 <= i < |times| => Failure(times[i]))
  }
}

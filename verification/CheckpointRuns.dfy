/** Runs of the resume protocol, with restarts and marker writes that fail
    before or after becoming durable, and the chat session that drives it. */
module CheckpointRuns {
  import opened Collections
  import opened Checkpoints
  import Breaker

  /** `taken` is the checkpoint an attempt to resume has in hand. */
  datatype World = World(log: seq<Logged>, held: Option<Held>, taken: Option<Held>, resumed: seq<EventId>)

  datatype Move =
    | Append(event: Logged)
    | Take
    | Mark(at: EventId)
    | Resume
    | PutBack
    | GiveUp
    | Stop
    | Find(found: Option<Held>)
    | Hold(held: Held)

  ghost predicate Logs(log: seq<Logged>, id: EventId) { exists i | 0 <= i < |log| :: log[i].id == id }

  function Marker(codec: Codec, o: Owner, at: EventId, id: EventId): Logged {
    Logged(at, ConsumptionOf(codec, id, o.agent, o.thread))
  }

  /** Markers are written only by this session; everything else may be appended
      by anyone, under a new identifier. */
  ghost predicate Enabled(codec: Codec, o: Owner, w: World, move: Move) {
    match move
    case Append(event) => !Logs(w.log, event.id) && (IsMarker(o, event) ==> Malformed(codec, o, event))
    case Take => w.held.Some?
    case Mark(at) => w.taken.Some? && !Logs(w.log, at)
    case Resume => w.taken.Some? && Consumed(codec, o, w.log, w.taken.value.id)
    case PutBack => w.taken.Some? && !Consumed(codec, o, w.log, w.taken.value.id)
    case GiveUp => true
    case Stop => true
    case Find(found) => w.taken.None? && (found.Some? ==> exists i: nat :: Offers(codec, o, w.log, i, found.value))
    case Hold(held) =>
      w.taken.None? && w.log != [] && w.log[|w.log| - 1].id == held.id && !IsMarker(o, w.log[|w.log| - 1])
  }

  ghost function Apply(codec: Codec, o: Owner, w: World, move: Move): World
    requires Enabled(codec, o, w, move)
  {
    match move
    case Append(event) => w.(log := w.log + [event])
    case Take => w.(held := None, taken := w.held)
    case Mark(at) => w.(log := w.log + [Marker(codec, o, at, w.taken.value.id)])
    case Resume => w.(taken := None, resumed := w.resumed + [w.taken.value.id])
    case PutBack => w.(held := w.taken, taken := None)
    case GiveUp => w.(taken := None)
    case Stop => w.(held := None, taken := None)
    case Find(found) => w.(held := found)
    case Hold(held) => w.(held := Some(held))
  }

  /** Every marker of ours names an earlier event. */
  ghost predicate PointBack(codec: Codec, o: Owner, log: seq<Logged>) {
    forall j, id | 0 <= j < |log| && Marks(codec, o, log[j], id) :: Logs(log[..j], id)
  }

  ghost predicate DistinctIds(log: seq<Logged>) { forall i, j | 0 <= i < j < |log| :: log[i].id != log[j].id }

  ghost predicate Sound(codec: Codec, o: Owner, w: World) {
    && codec.Valid() && DistinctIds(w.log) && PointBack(codec, o, w.log)
    && Distinct(w.resumed) && (forall id | id in w.resumed :: Consumed(codec, o, w.log, id))
    && (w.held.Some? ==> Logs(w.log, w.held.value.id) && !Consumed(codec, o, w.log, w.held.value.id))
    && (w.taken.Some? ==> Logs(w.log, w.taken.value.id) && w.taken.value.id !in w.resumed && w.held.None?)
  }

  // ----- The log as it grows -----

  lemma ConsumedAppend(codec: Codec, o: Owner, log: seq<Logged>, e: Logged, id: EventId)
    ensures Consumed(codec, o, log + [e], id) <==> Consumed(codec, o, log, id) || Marks(codec, o, e, id)
    ensures Logs(log + [e], id) <==> Logs(log, id) || e.id == id
  {
    var next := log + [e];
    assert next[|log|] == e;
    if i :| 0 <= i < |log| && Marks(codec, o, log[i], id) {
      assert Marks(codec, o, next[i], id);
    }
    if i :| 0 <= i < |log| && log[i].id == id {
      assert next[i].id == id;
    }
    if i :| 0 <= i < |next| && Marks(codec, o, next[i], id) && i < |log| {
      assert Marks(codec, o, log[i], id);
    }
    if i :| 0 <= i < |next| && next[i].id == id && i < |log| {
      assert log[i].id == id;
    }
  }

  lemma PointBackAppend(codec: Codec, o: Owner, log: seq<Logged>, e: Logged)
    requires PointBack(codec, o, log) && DistinctIds(log) && !Logs(log, e.id)
    requires forall id | Marks(codec, o, e, id) :: Logs(log, id)
    ensures PointBack(codec, o, log + [e]) && DistinctIds(log + [e])
  {
    hide Marks, Logs;
    var next := log + [e];
    forall j, id | 0 <= j < |next| && Marks(codec, o, next[j], id)
      ensures Logs(next[..j], id)
    {
      if j < |log| {
        assert next[..j] == log[..j];
        assert Marks(codec, o, log[j], id);
      } else {
        assert next[..j] == log;
      }
    }
    forall i, j | 0 <= i < j < |next|
      ensures next[i].id != next[j].id
    {
      if j == |log| {
        NotLogged(log, e.id, i);
      }
    }
  }

  lemma NotLogged(log: seq<Logged>, id: EventId, i: nat)
    requires !Logs(log, id) && i < |log|
    ensures log[i].id != id
  {
  }

  lemma MarkersComeLater(codec: Codec, o: Owner, log: seq<Logged>, k: nat, i: nat, id: EventId)
    requires PointBack(codec, o, log) && DistinctIds(log)
    requires k < |log| && Marks(codec, o, log[k], id) && i < |log| && log[i].id == id
    ensures i < k
  {
    assert Logs(log[..k], id);
    var j :| 0 <= j < k && log[..k][j].id == id;
    assert log[j].id == id;
  }

  /** A checkpoint found in the log has no marker anywhere in it: none after it,
      and none before it, since markers point back. */
  lemma OfferedIsFree(codec: Codec, o: Owner, log: seq<Logged>, i: nat, h: Held)
    requires PointBack(codec, o, log) && DistinctIds(log) && Offers(codec, o, log, i, h)
    ensures !Consumed(codec, o, log, h.id) && Logs(log, h.id)
  {
    hide ConsumedId, FromInteraction, Marks;
    forall k | 0 <= k < |log|
      ensures !Marks(codec, o, log[k], h.id)
    {
      if Marks(codec, o, log[k], h.id) {
        MarkersComeLater(codec, o, log, k, i, h.id);
        assert false;
      }
    }
    assert log[i].id == h.id;
  }

  lemma FreshIsFree(codec: Codec, o: Owner, log: seq<Logged>)
    requires PointBack(codec, o, log) && DistinctIds(log) && log != [] && !IsMarker(o, log[|log| - 1])
    ensures !Consumed(codec, o, log, log[|log| - 1].id) && Logs(log, log[|log| - 1].id)
  {
    hide ConsumedId;
    var last := |log| - 1;
    forall k | 0 <= k < |log|
      ensures !Marks(codec, o, log[k], log[last].id)
    {
      if Marks(codec, o, log[k], log[last].id) {
        MarkersComeLater(codec, o, log, k, last, log[last].id);
        assert false;
      }
    }
    assert log[last].id == log[last].id;
  }

  // ----- Safety over every run -----

  lemma GrowthKeepsSound(codec: Codec, o: Owner, w: World, e: Logged)
    requires Sound(codec, o, w) && !Logs(w.log, e.id)
    requires forall id | Marks(codec, o, e, id) :: Logs(w.log, id)
    requires w.held.Some? ==> !Marks(codec, o, e, w.held.value.id)
    ensures Sound(codec, o, w.(log := w.log + [e]))
  {
    hide Marks, Consumed, Logs, PointBack, DistinctIds;
    PointBackAppend(codec, o, w.log, e);
    forall id | id in w.resumed
      ensures Consumed(codec, o, w.log + [e], id)
    {
      ConsumedAppend(codec, o, w.log, e, id);
    }
    if w.held.Some? {
      ConsumedAppend(codec, o, w.log, e, w.held.value.id);
    }
    if w.taken.Some? {
      ConsumedAppend(codec, o, w.log, e, w.taken.value.id);
    }
  }

  lemma MoveKeepsSound(codec: Codec, o: Owner, w: World, move: Move)
    requires Sound(codec, o, w) && Enabled(codec, o, w, move)
    ensures Sound(codec, o, Apply(codec, o, w, move))
  {
    hide PointBack, DistinctIds, Consumed, Logs, Offers;
    if move.Append? {
      GrowthKeepsSound(codec, o, w, move.event);
    } else if move.Mark? {
      MarkerRoundTrip(codec, w.taken.value.id, o.agent, o.thread);
      GrowthKeepsSound(codec, o, w, Marker(codec, o, move.at, w.taken.value.id));
    } else if move.Find? {
      if move.found.Some? {
        var i: nat :| Offers(codec, o, w.log, i, move.found.value);
        OfferedIsFree(codec, o, w.log, i, move.found.value);
      }
    } else if move.Hold? {
      FreshIsFree(codec, o, w.log);
    }
  }

  ghost predicate Reaches(codec: Codec, o: Owner, w: World, moves: seq<Move>, t: World)
    decreases |moves|
  {
    if moves == [] then w == t
    else Enabled(codec, o, w, moves[0]) && Reaches(codec, o, Apply(codec, o, w, moves[0]), moves[1..], t)
  }

  /** Over every run: no checkpoint is resumed twice, whatever was resumed has
      its marker in the log, and whatever is held has none. */
  lemma {:induction false} ResumedAtMostOnce(codec: Codec, o: Owner, w: World, moves: seq<Move>, t: World)
    requires Sound(codec, o, w) && Reaches(codec, o, w, moves, t)
    ensures Sound(codec, o, t)
    ensures Distinct(t.resumed) && forall id | id in t.resumed :: Consumed(codec, o, t.log, id)
    ensures t.held.Some? ==> !Consumed(codec, o, t.log, t.held.value.id) && t.held.value.id !in t.resumed
    decreases |moves|
  {
    hide Enabled, Apply;
    if moves != [] {
      MoveKeepsSound(codec, o, w, moves[0]);
      ResumedAtMostOnce(codec, o, Apply(codec, o, w, moves[0]), moves[1..], t);
    }
  }

  lemma {:induction false} ReachesConcat(codec: Codec, o: Owner, w: World, a: seq<Move>, m: World, b: seq<Move>,
                                         t: World)
    requires Reaches(codec, o, w, a, m) && Reaches(codec, o, m, b, t)
    ensures Reaches(codec, o, w, a + b, t)
    decreases |a|
  {
    hide Enabled, Apply;
    if a == [] {
      assert a + b == b;
    } else {
      assert (a + b)[1..] == a[1..] + b;
      ReachesConcat(codec, o, Apply(codec, o, w, a[0]), a[1..], m, b, t);
    }
  }

  lemma Extend(codec: Codec, o: Owner, w: World, moves: seq<Move>, m: World, move: Move, t: World)
    returns (next: seq<Move>)
    requires Reaches(codec, o, w, moves, m) && Enabled(codec, o, m, move) && t == Apply(codec, o, m, move)
    ensures Reaches(codec, o, w, next, t)
  {
    hide Enabled, Apply;
    next := moves + [move];
    assert [move][1..] == [];
    assert Reaches(codec, o, m, [move], t);
    ReachesConcat(codec, o, w, moves, m, [move], t);
  }

  // ----- The session -----

  /** What the environment makes of one attempt: whether a write becomes durable
      and is reported, whether cognition catches up after a failure, and whether
      the log can be read. */
  datatype Luck = Luck(durable: bool, reported: bool, caughtUp: bool, readable: bool)
  {
    /** The writer learns that its event is in the log. */
    predicate Committed() { durable && reported }
  }

  /** What is reported to the memory circuit once a marker has been attempted. */
  function ReportsOf(luck: Luck, confirmed: bool, now: nat): seq<Breaker.Op> {
    if luck.Committed() then [Breaker.Success]
    else
      [Breaker.Failure(now)] + (if luck.caughtUp then [] else [Breaker.Failure(now)])
      + (if luck.readable && confirmed && luck.caughtUp then [Breaker.Success] else [])
  }

  ghost predicate AnyMalformed(codec: Codec, o: Owner, log: seq<Logged>) {
    exists i | 0 <= i < |log| :: Malformed(codec, o, log[i])
  }

  /** The attempt ended with knowledge of its marker: it was reported, or the log
      could be read, was well formed, and held it. */
  ghost predicate Confirmed(codec: Codec, o: Owner, luck: Luck, log: seq<Logged>, id: EventId) {
    luck.Committed() || (luck.readable && !AnyMalformed(codec, o, log) && Consumed(codec, o, log, id))
  }

  /** It ended with knowledge that there is no marker. */
  ghost predicate RuledOut(codec: Codec, o: Owner, luck: Luck, log: seq<Logged>, id: EventId) {
    !luck.Committed() && luck.readable && !AnyMalformed(codec, o, log) && !Consumed(codec, o, log, id)
  }

  /** One chat session of one agent and thread. `taken` and `resumed` are ghosts
      of the attempt under way and of the resumptions granted. */
  class Session {
    const codec: Codec
    const owner: Owner
    const breaker: Breaker.CircuitBreaker
    var log: seq<Logged>
    var checkpoint: Option<Held>
    ghost var resumed: seq<EventId>

    ghost function State(): World
      reads this
    {
      World(log, checkpoint, None, resumed)
    }

    ghost predicate Valid()
      reads this
    {
      Sound(codec, owner, State()) && breaker.Valid()
    }

    constructor (codec: Codec, owner: Owner)
      requires codec.Valid()
      ensures Valid() && log == [] && checkpoint == None && resumed == [] && fresh(breaker.Repr())
    {
      this.codec, this.owner, log, checkpoint, resumed := codec, owner, [], None, [];
      breaker := new Breaker.CircuitBreaker();
    }

    /** A commit may fail before or after the event becomes durable. */
    method Commit(body: Interaction, luck: Luck) returns (r: Result<EventId>)
      modifies this`log
      ensures r.Ok? <==> luck.Committed()
      ensures !luck.durable ==> log == old(log)
      ensures luck.durable ==> exists id :: !Logs(old(log), id) && log == old(log) + [Logged(id, body)]
      ensures r.Ok? ==> !Logs(old(log), r.value) && log == old(log) + [Logged(r.value, body)]
    {
      var id := NewId();
      if luck.durable {
        log := log + [Logged(id, body)];
      }
      r := if luck.Committed() then Ok(id) else Err("commit failed");
    }

    /** Identifiers of new events differ from all those in the log. */
    method NewId() returns (id: EventId)
      ensures !Logs(log, id)
    {
      id := 0;
      for i := 0 to |log|
        invariant forall k | 0 <= k < i :: log[k].id < id
      {
        id := if log[i].id >= id then log[i].id + 1 else id;
      }
    }

    /** A read of the canonical log may fail. */
    method Events(luck: Luck) returns (r: Result<seq<Logged>>)
      ensures r == if luck.readable then Ok(log) else Err("log unavailable")
    {
      r := if luck.readable then Ok(log) else Err("log unavailable");
    }

    predicate ReadableMarker(body: Interaction) {
      && body.agent == owner.agent && body.thread == owner.thread && body.recordType == Some(CheckpointConsumed)
      && ConsumedId(codec, body).Ok?
    }

    /** Anyone may append anything but a readable marker of ours. */
    method Overhear(body: Interaction, luck: Luck) returns (ghost moves: seq<Move>)
      requires Valid() && !ReadableMarker(body)
      modifies this`log
      ensures Valid() && Reaches(codec, owner, old(State()), moves, State())
      ensures !luck.durable ==> log == old(log)
      ensures luck.durable ==> exists id :: !Logs(old(log), id) && log == old(log) + [Logged(id, body)]
    {
      hide Sound, Reaches, Logs, ConsumedId;
      ghost var w := State();
      moves := [];
      assert Reaches(codec, owner, w, [], w) by { Nothing(w); }
      var r := Commit(body, luck);
      if log != w.log {
        ghost var event := log[|w.log|];
        moves := Extend(codec, owner, w, moves, w, Append(event), State());
      }
      ResumedAtMostOnce(codec, owner, w, moves, State());
    }

    lemma Nothing(w: World)
      ensures Reaches(codec, owner, w, [], w)
    {
    }

    /** The process stops and starts again: only the log remains. */
    method Restart() returns (ghost moves: seq<Move>)
      requires Valid()
      modifies this`checkpoint
      ensures Valid() && Reaches(codec, owner, old(State()), moves, State())
      ensures checkpoint.Some? ==> exists i: nat :: Offers(codec, owner, log, i, checkpoint.value)
      ensures forall i: nat, h | Offers(codec, owner, log, i, h) :: checkpoint == Some(h)
    {
      hide Sound, Reaches, Offers;
      ghost var w := State();
      var d := Discover(codec, owner, log);
      checkpoint := if d.Available? then Some(d.held) else None;
      assert Reaches(codec, owner, w, [], w) by { Nothing(w); }
      ghost var stopped := w.(held := None);
      moves := Extend(codec, owner, w, [], w, Stop, stopped);
      if d.Available? {
        assert exists i: nat :: Offers(codec, owner, log, i, d.held);
      }
      moves := Extend(codec, owner, w, moves, stopped, Find(checkpoint), State());
      ResumedAtMostOnce(codec, owner, w, moves, State());
      forall i: nat, h | Offers(codec, owner, log, i, h)
        ensures checkpoint == Some(h)
      {
        assert d == Available(h);
      }
    }

    /** With the memory circuit's leave: write the marker, then settle what it tells. */
    method ConsumeHeld(now: nat, luck: Luck) returns (r: Result<Plan>, ghost moves: seq<Move>)
      requires Valid() && checkpoint.Some?
      modifies this, breaker.channels[Breaker.Dcmdb]
      ensures Valid() && Reaches(codec, owner, old(State()), moves, State())
      ensures MarkerWritten(old(log), log, old(checkpoint).value.id, luck)
      ensures Outcome(old(State()), State(), r, luck)
      ensures breaker.Status(Breaker.Dcmdb) == Breaker.After(old(breaker.Status(Breaker.Dcmdb)),
                ReportsOf(luck, Confirmed(codec, owner, luck, log, old(checkpoint).value.id), now))
    {
      hide Sound, Reaches, Consumed, ConsumedId, Logs, AnyMalformed, Breaker.After, ReportsOf, MarkerWritten;
      ghost var w := State();
      var resumable := checkpoint.value;
      var consumed;
      assert Reaches(codec, owner, w, [], w) by { Nothing(w); }
      HeldIsNotResumed(w);
      consumed, moves := MarkConsumed(resumable, now, luck, [], w);
      r, moves := Settle(resumable, consumed, moves, w);
      ResumedAtMostOnce(codec, owner, w, moves, State());
    }

    /** The log gains the checkpoint's marker exactly when the write becomes durable. */
    ghost predicate MarkerWritten(before: seq<Logged>, after: seq<Logged>, id: EventId, luck: Luck) {
      if luck.durable then exists at :: !Logs(before, at) && after == before + [Marker(codec, owner, at, id)]
      else after == before
    }

    /** A marker known to be there resumes the checkpoint, one known to be absent
        leaves it held, and without knowledge it is given up. */
    ghost predicate Outcome(before: World, after: World, r: Result<Plan>, luck: Luck)
      requires before.held.Some?
    {
      var held := before.held.value;
      && (r.Ok? <==> Confirmed(codec, owner, luck, after.log, held.id))
      && (r.Ok? ==>
            && r.value == held.plan && after.held == None && after.resumed == before.resumed + [held.id]
            && held.id !in before.resumed && Consumed(codec, owner, after.log, held.id))
      && (r.Err? ==>
            && after.resumed == before.resumed
            && after.held == if RuledOut(codec, owner, luck, after.log, held.id) then before.held else None)
    }

    /** `prepare_checkpoint_resume`: consume the held checkpoint before any work
        starts. It resumes exactly when one is held, the circuit grants the call,
        and its marker is known to be in the log; after an error only proof of
        absence keeps it. */
    method PrepareResume(now: nat, luck: Luck) returns (r: Result<Plan>, ghost moves: seq<Move>)
      requires Valid()
      modifies this, breaker.channels[Breaker.Dcmdb]
      ensures Valid() && Reaches(codec, owner, old(State()), moves, State())
      ensures r.Ok? <==>
        && old(checkpoint).Some? && Breaker.Available(old(breaker.Status(Breaker.Dcmdb)), now)
        && Confirmed(codec, owner, luck, log, old(checkpoint).value.id)
      ensures old(checkpoint).None? || !Breaker.Available(old(breaker.Status(Breaker.Dcmdb)), now) ==>
        State() == old(State())
      ensures old(checkpoint).Some? && Breaker.Available(old(breaker.Status(Breaker.Dcmdb)), now) ==>
        && Outcome(old(State()), State(), r, luck)
        && MarkerWritten(old(log), log, old(checkpoint).value.id, luck)
      ensures r.Err? && old(checkpoint).Some? && checkpoint.None? ==>
        !luck.Committed() && (!luck.readable || AnyMalformed(codec, owner, log))
      ensures old(checkpoint).Some? ==>
        var asked := Breaker.Next(old(breaker.Status(Breaker.Dcmdb)), Breaker.Allow(now));
        var confirmed := Confirmed(codec, owner, luck, log, old(checkpoint).value.id);
        breaker.Status(Breaker.Dcmdb) ==
          if Breaker.Available(old(breaker.Status(Breaker.Dcmdb)), now)
          then Breaker.After(asked, ReportsOf(luck, confirmed, now)) else asked
    {
      hide Sound, Reaches, Consumed, ConsumedId, Logs, Breaker.Available, Breaker.Next, Breaker.After, ReportsOf;
      hide AnyMalformed, MarkerWritten;
      ghost var w := State();
      moves := [];
      assert Reaches(codec, owner, w, [], w) by { Nothing(w); }
      if checkpoint.None? {
        return Err("no resumable checkpoint"), moves;
      }
      var granted := breaker.Allow(Breaker.Dcmdb, now);
      if !granted {
        return Err("memory circuit is open; checkpoint remains available after recovery"), moves;
      }
      r, moves := ConsumeHeld(now, luck);
    }

    /** Resume on a marker, put back on its proven absence, otherwise give up. */
    method Settle(resumable: Held, consumed: Result<bool>, ghost moves: seq<Move>, ghost w: World)
      returns (r: Result<Plan>, ghost next: seq<Move>)
      requires checkpoint == None && Reaches(codec, owner, w, moves, World(log, None, Some(resumable), resumed))
      requires consumed.Ok? ==> (consumed.value <==> Consumed(codec, owner, log, resumable.id))
      modifies this`checkpoint, this`resumed
      ensures Reaches(codec, owner, w, next, State())
      ensures r.Ok? <==> consumed == Ok(true)
      ensures r.Ok? ==> r.value == resumable.plan && checkpoint == None && resumed == old(resumed) + [resumable.id]
      ensures r.Err? ==> resumed == old(resumed) && checkpoint == if consumed.Ok? then Some(resumable) else None
    {
      hide Reaches, Consumed;
      ghost var taken := World(log, None, Some(resumable), resumed);
      if consumed == Ok(true) {
        resumed := resumed + [resumable.id];
        next := Extend(codec, owner, w, moves, taken, Resume, State());
        r := Ok(resumable.plan);
      } else if consumed == Ok(false) {
        checkpoint := Some(resumable);
        next := Extend(codec, owner, w, moves, taken, PutBack, State());
        r := Err("no consumption marker was committed; checkpoint remains available");
      } else {
        next := Extend(codec, owner, w, moves, taken, GiveUp, State());
        r := Err("checkpoint consumption is indeterminate; local resume disabled");
      }
    }

    lemma HeldIsNotResumed(w: World)
      requires Sound(codec, owner, w) && w.held.Some?
      ensures w.held.value.id !in w.resumed
    {
    }

    /** Take the checkpoint in hand and write its marker. */
    method WriteMarker(resumable: Held, luck: Luck, ghost moves: seq<Move>, ghost w: World)
      returns (marked: Result<EventId>, ghost next: seq<Move>)
      requires codec.Valid() && checkpoint == Some(resumable) && w == State() && Reaches(codec, owner, w, moves, w)
      modifies this`checkpoint, this`log
      ensures checkpoint == None && MarkerWritten(old(log), log, resumable.id, luck)
      ensures Reaches(codec, owner, w, next, World(log, None, Some(resumable), resumed))
      ensures marked.Ok? <==> luck.Committed()
      ensures marked.Ok? ==> Consumed(codec, owner, log, resumable.id)
    {
      hide Sound, Reaches, Logs, ConsumedId, Consumed;
      checkpoint := None;
      ghost var taken := World(log, None, Some(resumable), resumed);
      next := Extend(codec, owner, w, moves, w, Take, taken);
      marked := Commit(ConsumptionOf(codec, resumable.id, owner.agent, owner.thread), luck);
      if log != w.log {
        ghost var at := log[|w.log|].id;
        next := Extend(codec, owner, w, next, taken, Mark(at), World(log, None, Some(resumable), resumed));
        MarkerReads(w.log, at, resumable.id);
      }
    }

    /** After a write error, what the log can tell of the marker, and the reports of the failure. */
    method ReadBack(id: EventId, now: nat, luck: Luck) returns (consumed: Result<bool>)
      requires breaker.Valid() && !luck.Committed()
      modifies breaker.channels[Breaker.Dcmdb]
      ensures consumed.Ok? <==> luck.readable && !AnyMalformed(codec, owner, log)
      ensures consumed.Ok? ==> (consumed.value <==> Consumed(codec, owner, log, id))
      ensures breaker.Status(Breaker.Dcmdb) == Breaker.After(old(breaker.Status(Breaker.Dcmdb)),
                ReportsOf(luck, Confirmed(codec, owner, luck, log, id), now))
    {
      hide Consumed, Breaker.Next;
      ghost var before := breaker.Status(Breaker.Dcmdb);
      ReportsAdd(before, luck, now);
      breaker.Record(Breaker.Dcmdb, Breaker.Failure(now));
      if !luck.caughtUp {
        breaker.Record(Breaker.Dcmdb, Breaker.Failure(now));
      }
      hide Breaker.After, ReportsOf;
      var events := Events(luck);
      if events.Err? {
        return Err(events.error);
      }
      consumed := ExactlyConsumed(codec, owner, events.value, id);
      if consumed == Ok(true) && luck.caughtUp {
        breaker.Record(Breaker.Dcmdb, Breaker.Success);
      }
    }

    /** What the reports add up to. */
    static lemma ReportsAdd(c: Breaker.Snapshot, luck: Luck, now: nat)
      ensures luck.Committed() ==> forall confirmed ::
        Breaker.After(c, ReportsOf(luck, confirmed, now)) == Breaker.Next(c, Breaker.Success)
      ensures !luck.Committed() ==>
        var failed := Breaker.Next(c, Breaker.Failure(now));
        var later := if luck.caughtUp then failed else Breaker.Next(failed, Breaker.Failure(now));
        forall confirmed :: Breaker.After(c, ReportsOf(luck, confirmed, now)) ==
          if luck.readable && confirmed && luck.caughtUp then Breaker.Next(later, Breaker.Success) else later
    {
      hide Breaker.Next;
      forall confirmed
        ensures luck.Committed() ==>
          Breaker.After(c, ReportsOf(luck, confirmed, now)) == Breaker.Next(c, Breaker.Success)
      {
        AfterOne(c, Breaker.Success);
      }
      var failure := Breaker.Failure(now);
      var failed := Breaker.Next(c, failure);
      AfterOne(c, failure);
      AfterOne(failed, failure);
      AfterOne(failed, Breaker.Success);
      AfterOne(Breaker.Next(failed, failure), Breaker.Success);
      AfterMore(c, failure, [failure]);
      AfterMore(c, failure, [Breaker.Success]);
    }

    static lemma AfterOne(c: Breaker.Snapshot, op: Breaker.Op)
      ensures Breaker.After(c, [op]) == Breaker.Next(c, op)
    {
      assert [op][1..] == [];
    }

    static lemma AfterMore(c: Breaker.Snapshot, op: Breaker.Op, ops: seq<Breaker.Op>)
      ensures Breaker.After(c, [op] + ops) == Breaker.After(Breaker.Next(c, op), ops)
    {
      assert ([op] + ops)[1..] == ops;
    }

    /** Write the marker and report what is known of it. */
    method MarkConsumed(resumable: Held, now: nat, luck: Luck, ghost moves: seq<Move>, ghost w: World)
      returns (consumed: Result<bool>, ghost next: seq<Move>)
      requires Valid() && checkpoint == Some(resumable) && w == State() && Reaches(codec, owner, w, moves, w)
      modifies this`checkpoint, this`log, breaker.channels[Breaker.Dcmdb]
      ensures checkpoint == None && resumed == old(resumed) && MarkerWritten(old(log), log, resumable.id, luck)
      ensures Reaches(codec, owner, w, next, World(log, None, Some(resumable), resumed))
      ensures consumed == Ok(true) <==> Confirmed(codec, owner, luck, log, resumable.id)
      ensures consumed == Ok(false) <==> RuledOut(codec, owner, luck, log, resumable.id)
      ensures consumed.Ok? ==> (consumed.value <==> Consumed(codec, owner, log, resumable.id))
      ensures breaker.Status(Breaker.Dcmdb) == Breaker.After(old(breaker.Status(Breaker.Dcmdb)),
                ReportsOf(luck, Confirmed(codec, owner, luck, log, resumable.id), now))
    {
      hide Reaches, Consumed, Breaker.Next, Breaker.After, ReportsOf, AnyMalformed, MarkerWritten;
      var marked;
      ReportsAdd(breaker.Status(Breaker.Dcmdb), luck, now);
      marked, next := WriteMarker(resumable, luck, moves, w);
      if marked.Ok? {
        breaker.Record(Breaker.Dcmdb, Breaker.Success);
        consumed := Ok(true);
      } else {
        consumed := ReadBack(resumable.id, now, luck);
      }
    }

    lemma MarkerReads(before: seq<Logged>, at: EventId, id: EventId)
      requires codec.Valid()
      ensures Consumed(codec, owner, before + [Marker(codec, owner, at, id)], id)
    {
      MarkerRoundTrip(codec, id, owner.agent, owner.thread);
      ConsumedAppend(codec, owner, before, Marker(codec, owner, at, id), id);
    }

    lemma OffersAreFound(d: Discovery)
      requires forall h: Held :: d == Available(h) <==> exists i: nat :: Offers(codec, owner, log, i, h)
      ensures d.Available? ==> exists i: nat :: Offers(codec, owner, log, i, d.held)
      ensures forall i: nat, h: Held | Offers(codec, owner, log, i, h) :: d == Available(h)
    {
      hide Offers;
      if d.Available? {
        assert d == Available(d.held);
      }
      forall i: nat, h: Held | Offers(codec, owner, log, i, h)
        ensures d == Available(h)
      {
      }
    }

    /** The checkpoint on offer, if it is this plan. */
    method FindSaved(plan: Plan, luck: Luck) returns (r: Result<Option<Held>>)
      ensures r.Ok? <==> luck.readable
      ensures r.Ok? && r.value.Some? ==> Offered(log, r.value.value) && r.value.value.plan == plan
      ensures r.Ok? && r.value.None? ==> forall h: Held | h.plan == plan :: !Offered(log, h)
    {
      hide Offers;
      var events := Events(luck);
      if events.Err? {
        return Err(events.error);
      }
      var saved := Discover(codec, owner, events.value);
      OffersAreFound(saved);
      r := Ok(if saved.Available? && saved.held.plan == plan then Some(saved.held) else None);
    }

    ghost predicate Offered(log: seq<Logged>, h: Held) { exists i: nat :: Offers(codec, owner, log, i, h) }

    lemma OfferedOnce(log: seq<Logged>, a: Held, b: Held)
      requires Offered(log, a) && Offered(log, b)
      ensures a == b
    {
      hide FromInteraction, Malformed, MarkedAfter;
      var i: nat :| Offers(codec, owner, log, i, a);
      var j: nat :| Offers(codec, owner, log, j, b);
      assert i == j;
    }

    /** Write a checkpoint and hold it. */
    method SaveNew(plan: Plan, now: nat, luck: Luck, ghost w: World, ghost moves: seq<Move>)
      returns (ok: bool, ghost next: seq<Move>)
      requires Valid() && w == State() && Reaches(codec, owner, w, moves, w)
      modifies this, breaker.channels[Breaker.Dcmdb]
      ensures Valid() && Reaches(codec, owner, w, next, State()) && resumed == old(resumed)
      ensures ok <==>
        codec.sound(plan) && Breaker.Available(old(breaker.Status(Breaker.Dcmdb)), now) && luck.Committed()
      ensures Written(old(log), log, plan, codec.sound(plan)
                && Breaker.Available(old(breaker.Status(Breaker.Dcmdb)), now) && luck.durable)
      ensures ok ==> log != [] && checkpoint == Some(Held(plan, log[|log| - 1].id))
      ensures !ok ==> checkpoint == old(checkpoint)
      ensures breaker.Status(Breaker.Dcmdb) ==
        if codec.sound(plan) then AfterSaving(old(breaker.Status(Breaker.Dcmdb)), now, luck)
        else old(breaker.Status(Breaker.Dcmdb))
    {
      hide Sound, Reaches, Logs, Offers, FromInteraction, Breaker.Next, Breaker.Available;
      next := moves;
      var interaction := ToInteraction(codec, plan, owner.agent, owner.thread);
      if interaction.Err? {
        return false, next;
      }
      var granted := breaker.Allow(Breaker.Dcmdb, now);
      if !granted {
        return false, next;
      }
      var receipt := Commit(interaction.value, luck);
      ghost var committed := World(log, w.held, None, w.resumed);
      if log != w.log {
        next := Extend(codec, owner, w, next, w, Append(log[|w.log|]), committed);
      }
      ok := receipt.Ok?;
      if receipt.Err? {
        breaker.Record(Breaker.Dcmdb, Breaker.Failure(now));
      } else {
        breaker.Record(Breaker.Dcmdb, Breaker.Success);
        checkpoint := Some(Held(plan, receipt.value));
        next := Extend(codec, owner, w, next, committed, Hold(checkpoint.value), State());
      }
      ResumedAtMostOnce(codec, owner, w, next, State());
    }

    /** The memory circuit is asked, and the write reported if it was granted. */
    static function AfterSaving(c: Breaker.Snapshot, now: nat, luck: Luck): Breaker.Snapshot {
      var asked := Breaker.Next(c, Breaker.Allow(now));
      if !Breaker.Available(c, now) then asked
      else Breaker.Next(asked, if luck.Committed() then Breaker.Success else Breaker.Failure(now))
    }

    /** The log gains one checkpoint, or nothing. */
    ghost predicate Written(before: seq<Logged>, after: seq<Logged>, plan: Plan, durable: bool) {
      if durable then
        && |after| == |before| + 1 && after[..|before|] == before && !Logs(before, after[|before|].id)
        && ToInteraction(codec, plan, owner.agent, owner.thread) == Ok(after[|before|].body)
      else after == before
    }

    /** `checkpoint_from_outcome`: hold the checkpoint a stopped run returned,
        reusing the one already saved, without a write, if it is the same. */
    method FromOutcome(outcome: Option<Plan>, now: nat, luck: Luck) returns (ok: bool, ghost moves: seq<Move>)
      requires Valid()
      modifies this, breaker.channels[Breaker.Dcmdb]
      ensures Valid() && Reaches(codec, owner, old(State()), moves, State()) && resumed == old(resumed)
      ensures outcome.None? ==> ok && State() == old(State())
      ensures outcome.Some? && !luck.readable ==> !ok && State() == old(State())
      ensures outcome.None? || !luck.readable || (exists h: Held :: h.plan == outcome.value && Offered(old(log), h)) ==>
        breaker.Status(Breaker.Dcmdb) == old(breaker.Status(Breaker.Dcmdb))
      ensures outcome.Some? && luck.readable ==> forall h: Held | h.plan == outcome.value && Offered(old(log), h) ::
        ok && log == old(log) && checkpoint == Some(h)
      ensures outcome.Some? && luck.readable && (forall h: Held | h.plan == outcome.value :: !Offered(old(log), h)) ==>
        var granted := codec.sound(outcome.value) && Breaker.Available(old(breaker.Status(Breaker.Dcmdb)), now);
        && (ok <==> granted && luck.Committed())
        && Written(old(log), log, outcome.value, granted && luck.durable)
        && (ok ==> log != [] && checkpoint == Some(Held(outcome.value, log[|log| - 1].id)))
        && (codec.sound(outcome.value) ==>
              breaker.Status(Breaker.Dcmdb) == AfterSaving(old(breaker.Status(Breaker.Dcmdb)), now, luck))
      ensures !ok ==> checkpoint == old(checkpoint)
    {
      hide Sound, Reaches, Logs, Offered, Written, Breaker.Available, Breaker.Next, AfterSaving;
      ghost var w := State();
      ok, moves := true, [];
      assert Reaches(codec, owner, w, [], w) by { Nothing(w); }
      if outcome.Some? {
        var saved := FindSaved(outcome.value, luck);
        if saved.Err? {
          ok := false;
        } else if saved.value.Some? {
          checkpoint := saved.value;
          Findable(w, saved.value.value);
          moves := Extend(codec, owner, w, moves, w, Find(checkpoint), State());
          ResumedAtMostOnce(codec, owner, w, moves, State());
          forall h: Held | h.plan == outcome.value && Offered(w.log, h)
            ensures h == saved.value.value
          {
            OfferedOnce(w.log, h, saved.value.value);
          }
        } else {
          ok, moves := SaveNew(outcome.value, now, luck, w, moves);
        }
      }
    }

    lemma Findable(w: World, h: Held)
      requires w.taken.None? && Offered(w.log, h)
      ensures Enabled(codec, owner, w, Find(Some(h)))
    {
      hide Offers;
    }
  }
}

/** The store behind the transcript: an append-only log and local journals.
    Every write may fail before or after it becomes durable, and a caller that
    sees the failure stops; a stop of the process is the same thing. */
module TranscriptStore {
  import opened Collections
  import opened Ranking
  import opened Messages
  import opened Transcript
  import opened TranscriptRuns

  class Heart {
    const wording: Wording
    var log: seq<Event>
    var states: map<RunId, Envelope>

    /** How many writes have been reported as failed. */
    ghost var failures: nat

    ghost function State(): World
      reads this
    {
      World(log, states)
    }

    /** Every journal is filed under its own run. */
    ghost predicate Valid()
      reads this
    {
      forall run | run in states :: states[run].progress.runId == run
    }

    constructor (wording: Wording)
      ensures Valid() && log == [] && states == map[] && this.wording == wording
    {
      this.wording, log, states, failures := wording, [], map[], 0;
    }

    // ----- Writes -----

    method CommitEmbedded(event: Event) returns (ok: bool)
      modifies this`log, this`failures
      ensures log == old(log) + [event] || (log == old(log) && !ok)
      ensures failures == old(failures) + if ok then 0 else 1
    {
      var durable: bool, reported: bool := *, *;
      if durable {
        log := log + [event];
      }
      ok := durable && reported;
      failures := failures + if ok then 0 else 1;
    }

    method Forget(run: RunId) returns (ok: bool)
      modifies this`states, this`failures
      ensures states == old(states) - {run} || (states == old(states) && !ok)
      ensures failures == old(failures) + if ok then 0 else 1
    {
      var durable: bool, reported: bool := *, *;
      if durable {
        states := states - {run};
      }
      ok := durable && reported;
      failures := failures + if ok then 0 else 1;
    }

    method Put(run: RunId, envelope: Envelope) returns (ok: bool)
      requires Valid() && envelope.progress.runId == run
      modifies this`states, this`failures
      ensures Valid()
      ensures states == old(states)[run := envelope] || (states == old(states) && !ok)
      ensures failures == old(failures) + if ok then 0 else 1
    {
      var durable: bool, reported: bool := *, *;
      if durable {
        states := states[run := envelope];
      }
      ok := durable && reported;
      failures := failures + if ok then 0 else 1;
    }

    /** `HeartJournal::save`. */
    method SaveJournal(agent: AgentId, thread: ThreadId, grounding: bool, progress: Progress) returns (ok: bool)
      requires Valid()
      modifies this`states, this`failures
      ensures Valid()
      ensures states == old(states)[progress.runId := Envelope(1, agent, thread, progress, grounding)]
           || (states == old(states) && !ok)
      ensures failures == old(failures) + if ok then 0 else 1
    {
      ok := Put(progress.runId, Envelope(1, agent, thread, progress, grounding));
    }

    // ----- Projection -----

    /** Commit one part unless its identity is recorded. */
    method ProjectPart(event: Event, recorded: set<Identity>)
      returns (ok: bool, now: set<Identity>, ghost written: seq<Event>)
      requires recorded == Recorded(log)
      modifies this`log, this`failures
      ensures log == old(log) + written && failures >= old(failures) && (ok <==> failures == old(failures))
      ensures IdsOf(event) * recorded != {} ==> ok && written == [] && now == recorded
      ensures IdsOf(event) * recorded == {} ==> written <= [event] && now == recorded + IdsOf(event)
      ensures ok ==> now == Recorded(log) && (IdsOf(event) * recorded == {} ==> written == [event])
    {
      hide Recorded, IdsOf;
      ok, now, written := true, recorded, [];
      assert log + [] == log;
      if IdsOf(event) * recorded == {} {
        ghost var before := log;
        Grown(log, event);
        ok := CommitEmbedded(event);
        if log != before {
          written := [event];
        }
        now := now + IdsOf(event);
      }
    }

    /** Commit the parts of one message that are not recorded yet. */
    method ProjectParts(events: seq<Event>, recorded: set<Identity>)
      returns (ok: bool, now: set<Identity>, ghost written: seq<Event>)
      requires recorded == Recorded(log)
      modifies this`log, this`failures
      ensures log == old(log) + written && written <= Unrecorded(events, recorded)
      ensures failures >= old(failures) && (ok <==> failures == old(failures))
      ensures ok ==> written == Unrecorded(events, recorded) && now == Recorded(log)
    {
      hide Recorded, IdsOf;
      ok, now, written := true, recorded, [];
      var i := 0;
      assert log + [] == log;
      while i < |events| && ok
        invariant i <= |events| && log == old(log) + written
        invariant failures >= old(failures) && (ok <==> failures == old(failures))
        invariant written <= Unrecorded(events, recorded)
        invariant ok ==> now == Recorded(log) && Unrecorded(events, recorded) == written + Unrecorded(events[i..], now)
        decreases |events| - i, ok
      {
        ghost var one;
        assert events[i..][1..] == events[i + 1..];
        ok, now, one := ProjectPart(events[i], now);
        written := written + one;
        i := i + 1;
      }
      assert ok ==> events[i..] == [];
    }

    static lemma Grown(log: seq<Event>, event: Event)
      ensures Recorded(log + [event]) == Recorded(log) + IdsOf(event) && log + [event] != log
    {
      RecordedConcat(log, [event]);
      RecordedOne(event);
    }

    /** Resolve calls over the whole batch, then commit what is not recorded:
        the log gains the unrecorded events in order, or stops part way. */
    method ProjectBatch(agent: AgentId, thread: ThreadId, messages: seq<Message>)
      returns (ok: bool, recorded: set<Identity>, ghost table: Table, ghost written: seq<Event>)
      modifies this`log, this`failures
      ensures TableOk(messages, Place(|messages|, 0), table)
      ensures failures >= old(failures) && (ok <==> failures == old(failures))
      ensures log == old(log) + written
      ensures written <= Unrecorded(BatchEvents(agent, thread, table, messages, |messages|), Recorded(old(log)))
      ensures ok ==> written == Unrecorded(BatchEvents(agent, thread, table, messages, |messages|), Recorded(old(log)))
      ensures ok ==> recorded == Recorded(log)
    {
      hide EventsOf, Unrecorded, BatchEvents, TableOk, Recorded, Projected;
      var calls := CallTable(messages);
      table := calls;
      ok, recorded, written := true, Recorded(log), [];
      ghost var base := log;
      NothingProjected(agent, thread, table, messages, base);
      var i := 0;
      while i < |messages| && ok
        invariant i <= |messages| && failures >= old(failures) && (ok <==> failures == old(failures))
        invariant Projected(base, log, written, BatchDue(agent, thread, table, messages, i, base), ok, recorded)
        decreases |messages| - i, ok
      {
        ghost var before, part := log, [];
        BatchStep(agent, thread, table, messages, i, base);
        StillProjected(base, log, written, BatchDue(agent, thread, table, messages, i, base), recorded);
        ok, recorded, part := ProjectParts(EventsOf(agent, thread, calls, messages[i], i), recorded);
        ProjectedMore(base, before, written, log, part,
                      Unrecorded(EventsOf(agent, thread, calls, messages[i], i), Recorded(before)),
                      ok, recorded);
        written := written + part;
        i := i + 1;
      }
      Concluding(base, log, written, BatchDue(agent, thread, table, messages, i, base), ok, recorded);
      BatchPrefix(agent, thread, table, messages, i, Recorded(base));
    }

    /** What the first `n` messages still have to add to the log. */
    static function BatchDue(agent: AgentId, thread: ThreadId, table: Table, messages: seq<Message>, n: nat,
                             base: seq<Event>): seq<Event>
      requires n <= |messages|
    {
      Unrecorded(BatchEvents(agent, thread, table, messages, n), Recorded(base))
    }

    /** The log has gained a front part of what is due, and all of it unless something failed. */
    static predicate Projected(base: seq<Event>, log: seq<Event>, written: seq<Event>, due: seq<Event>, ok: bool,
                               recorded: set<Identity>)
    {
      log == base + written && written <= due && (ok ==> written == due && recorded == Recorded(log))
    }

    static lemma NothingProjected(agent: AgentId, thread: ThreadId, table: Table, messages: seq<Message>,
                                  base: seq<Event>)
      ensures Projected(base, base, [], BatchDue(agent, thread, table, messages, 0, base), true, Recorded(base))
    {
      hide Recorded;
      assert base + [] == base;
    }

    static lemma StillProjected(base: seq<Event>, log: seq<Event>, written: seq<Event>, due: seq<Event>,
                                recorded: set<Identity>)
      requires Projected(base, log, written, due, true, recorded)
      ensures written == due && log == base + due && recorded == Recorded(log)
    {
      hide Recorded;
    }

    static lemma Concluding(base: seq<Event>, log: seq<Event>, written: seq<Event>, due: seq<Event>, ok: bool,
                            recorded: set<Identity>)
      requires Projected(base, log, written, due, ok, recorded)
      ensures log == base + written && written <= due && (ok ==> written == due && recorded == Recorded(log))
    {
      hide Recorded;
    }

    static lemma ProjectedMore(base: seq<Event>, before: seq<Event>, written: seq<Event>, log: seq<Event>,
                               part: seq<Event>,
                               more: seq<Event>, ok: bool, recorded: set<Identity>)
      requires before == base + written && log == before + part && part <= more
      requires ok ==> part == more && recorded == Recorded(log)
      ensures Projected(base, log, written + part, written + more, ok, recorded)
    {
      hide Recorded;
      assert base + written + part == base + (written + part);
    }

    static lemma BatchStep(agent: AgentId, thread: ThreadId, table: Table, messages: seq<Message>, i: nat,
                           base: seq<Event>)
      requires i < |messages|
      ensures var done := Unrecorded(BatchEvents(agent, thread, table, messages, i), Recorded(base));
        Unrecorded(BatchEvents(agent, thread, table, messages, i + 1), Recorded(base))
        == done + Unrecorded(EventsOf(agent, thread, table, messages[i], i), Recorded(base + done))
    {
      hide EventsOf;
      var events := BatchEvents(agent, thread, table, messages, i);
      UnrecordedConcat(events, EventsOf(agent, thread, table, messages[i], i), Recorded(base));
      ProjectionRecords(base, events);
    }

    static lemma {:induction false} BatchPrefix(agent: AgentId, thread: ThreadId, table: Table,
                                                messages: seq<Message>, i: nat, recorded: set<Identity>)
      requires i <= |messages|
      ensures Unrecorded(BatchEvents(agent, thread, table, messages, i), recorded)
           <= Unrecorded(BatchEvents(agent, thread, table, messages, |messages|), recorded)
      decreases |messages| - i
    {
      hide EventsOf;
      if i < |messages| {
        UnrecordedConcat(BatchEvents(agent, thread, table, messages, i), EventsOf(agent, thread, table, messages[i], i),
                         recorded);
        BatchPrefix(agent, thread, table, messages, i + 1, recorded);
      }
    }

    // ----- Dropping finished journals -----

    /** Every journal can be read. */
    static ghost predicate AllDecodable(states: map<RunId, Envelope>) {
      forall run | run in states :: Decodable(states[run])
    }

    /** Plainly finished, with every identity it requires recorded. */
    static predicate Droppable(e: Envelope, recorded: set<Identity>) {
      Decodable(e) && !NeedsCheckpoint(e.progress) && Required(e.progress.messages[e.progress.start..]) <= recorded
    }

    /** The closing loop of `persist`: drop every plainly finished journal whose
        identities are all recorded, and no other. An unreadable journal stops it. */
    method DropFinished(recorded: set<Identity>, ghost s: World, ghost moves: seq<Move>, ghost owed: set<Identity>)
      returns (ok: bool, ghost next: seq<Move>)
      requires Valid() && recorded == Recorded(log) && Reaches(wording, s, moves, State())
      requires RecoveryMoves(moves, owed)
      modifies this`states, this`failures
      ensures Valid() && Reaches(wording, s, next, State()) && RecoveryMoves(next, owed)
      ensures failures >= old(failures)
      ensures ok <==> failures == old(failures) && AllDecodable(old(states))
      ensures forall run | run in states :: run in old(states) && states[run] == old(states)[run]
      ensures forall run | run in old(states) && !Droppable(old(states)[run], recorded) :: run in states
      ensures ok ==> forall run | run in old(states) && Droppable(old(states)[run], recorded) :: run !in states
      ensures Checkpointed(next) == Checkpointed(moves)
    {
      hide Owed, Completed, Reaches, Checkpointed, Droppable, Decodable;
      ok, next := true, moves;
      var saved := states;
      var todo := saved.Keys;
      while todo != {} && ok
        invariant Valid() && Reaches(wording, s, next, State()) && RecoveryMoves(next, owed)
        invariant forall run | run in states :: run in saved && states[run] == saved[run]
        invariant forall run | run in saved && !Droppable(saved[run], recorded) :: run in states
        invariant ok ==> forall run | run in saved && run !in todo && Droppable(saved[run], recorded) :: run !in states
        invariant todo <= saved.Keys && Checkpointed(next) == Checkpointed(moves)
        invariant failures >= old(failures)
        invariant ok ==> failures == old(failures) && forall run | run in saved && run !in todo :: Decodable(saved[run])
        invariant !ok ==> failures > old(failures) || exists run :: run in saved && !Decodable(saved[run])
        decreases |todo|
      {
        var run :| run in todo;
        todo := todo - {run};
        ok, next := DropOne(run, saved[run], recorded, s, next, owed);
      }
    }

    method DropOne(run: RunId, saved: Envelope, recorded: set<Identity>, ghost s: World, ghost moves: seq<Move>,
                   ghost owed: set<Identity>)
      returns (ok: bool, ghost next: seq<Move>)
      requires Valid() && recorded == Recorded(log) && Reaches(wording, s, moves, State())
      requires RecoveryMoves(moves, owed)
      requires run in states ==> states[run] == saved
      modifies this`states, this`failures
      ensures Valid() && Reaches(wording, s, next, State()) && RecoveryMoves(next, owed)
      ensures failures >= old(failures) && (ok <==> failures == old(failures) && Decodable(saved))
      ensures states == old(states) || (states == old(states) - {run} && Droppable(saved, recorded))
      ensures ok && Droppable(saved, recorded) ==> run !in states
      ensures Checkpointed(next) == Checkpointed(moves)
    {
      hide Owed, Completed, Reaches, Checkpointed;
      ok, next := true, moves;
      if !Decodable(saved) {
        return false, next;
      }
      if NeedsCheckpoint(saved.progress) {
        return true, next;
      }
      if Required(saved.progress.messages[saved.progress.start..]) <= recorded {
        FinishedOwes(wording, saved);
        ghost var before := State();
        ok := Forget(run);
        if states != before.states {
          next := Discarded(before, run, s, moves, owed);
        }
      }
    }

    lemma Discarded(before: World, run: RunId, s: World, moves: seq<Move>, owed: set<Identity>)
      returns (next: seq<Move>)
      requires Enabled(wording, before, Discard(run)) && Reaches(wording, s, moves, before)
      requires RecoveryMoves(moves, owed)
      ensures Reaches(wording, s, next, before.(states := before.states - {run}))
      ensures RecoveryMoves(next, owed) && Checkpointed(next) == Checkpointed(moves)
    {
      CheckpointedConcat(moves, [Discard(run)]);
      assert Checkpointed([Discard(run)]) == 0;
      hide Owed, Completed, Reaches, Enabled, Checkpointed;
      next := moves + [Discard(run)];
      Extend(wording, s, moves, before, Discard(run), before.(states := before.states - {run}));
      RecoveryMovesConcat(moves, [Discard(run)], owed);
    }

    /** `persist`: project the batch, then drop what it completed. */
    method Persist(agent: AgentId, thread: ThreadId, messages: seq<Message>, ghost s: World, ghost moves: seq<Move>,
                   ghost owed: set<Identity>)
      returns (ok: bool, ghost next: seq<Move>, ghost table: Table)
      requires Valid() && Reaches(wording, s, moves, State()) && RecoveryMoves(moves, owed)
        && Required(messages) <= owed
      modifies this
      ensures Valid() && Reaches(wording, s, next, State()) && RecoveryMoves(next, owed)
      ensures forall run | run in states :: run in old(states) && states[run] == old(states)[run]
      ensures forall run | run in old(states) && !Droppable(old(states)[run], Recorded(log)) :: run in states
      ensures ok ==> forall run | run in old(states) && Droppable(old(states)[run], Recorded(log)) :: run !in states
      ensures TableOk(messages, Place(|messages|, 0), table)
      ensures log <= old(log) + Unrecorded(BatchEvents(agent, thread, table, messages, |messages|), Recorded(old(log)))
      ensures ok ==>
        log == old(log) + Unrecorded(BatchEvents(agent, thread, table, messages, |messages|), Recorded(old(log)))
      ensures ok ==> Required(messages) <= Recorded(log)
      ensures failures >= old(failures) && (ok <==> failures == old(failures) && AllDecodable(old(states)))
      ensures old(log) <= log && forall i | |old(log)| <= i < |log| :: ToldIn(log[i], agent, thread, messages)
      ensures Checkpointed(next) == Checkpointed(moves)
    {
      hide Owed, Completed, Reaches, Required, BatchEvents, TableOk, Checkpointed, Droppable, AllDecodable, ToldIn;
      ghost var before := State();
      var recorded;
      ghost var written;
      ok, recorded, table, written := ProjectBatch(agent, thread, messages);
      next := Written(before, agent, thread, messages, table, written, s, moves, owed);
      WrittenIsTold(before.log, agent, thread, messages, table, written);
      if ok {
        BatchIsRecorded(before.log, agent, thread, table, messages);
        ok, next := DropFinished(recorded, s, next, owed);
      }
    }

    /** The event tells a part of one of the messages. */
    static ghost predicate ToldIn(e: Event, agent: AgentId, thread: ThreadId, messages: seq<Message>) {
      exists k :: 0 <= k < |messages| && Tells(e, agent, thread, messages[k])
    }

    static lemma {:induction false} BatchIsTold(agent: AgentId, thread: ThreadId, table: Table, messages: seq<Message>,
                                                n: nat)
      requires n <= |messages|
      ensures forall e | e in BatchEvents(agent, thread, table, messages, n) :: ToldIn(e, agent, thread, messages)
      decreases n
    {
      hide EventsOf, Tells;
      if n > 0 {
        BatchIsTold(agent, thread, table, messages, n - 1);
        PartsAreTold(agent, thread, table, messages[n - 1], n - 1);
      }
    }

    static lemma {:induction false} UnrecordedAmong(events: seq<Event>, recorded: set<Identity>)
      ensures forall e | e in Unrecorded(events, recorded) :: e in events
      decreases |events|
    {
      if events != [] {
        UnrecordedAmong(events[1..], recorded);
        UnrecordedAmong(events[1..], recorded + IdsOf(events[0]));
      }
    }

    static lemma WrittenIsTold(before: seq<Event>, agent: AgentId, thread: ThreadId, messages: seq<Message>,
                               table: Table, written: seq<Event>)
      requires written <= Unrecorded(BatchEvents(agent, thread, table, messages, |messages|), Recorded(before))
      ensures var after := before + written;
        forall i | |before| <= i < |after| :: ToldIn(after[i], agent, thread, messages)
    {
      hide ToldIn, Unrecorded, BatchEvents, Recorded;
      var events := BatchEvents(agent, thread, table, messages, |messages|);
      BatchIsTold(agent, thread, table, messages, |messages|);
      UnrecordedAmong(events, Recorded(before));
      var after := before + written;
      forall i | |before| <= i < |after|
        ensures ToldIn(after[i], agent, thread, messages)
      {
        assert after[i] == written[i - |before|] == Unrecorded(events, Recorded(before))[i - |before|];
      }
    }

    static lemma BatchIsRecorded(log: seq<Event>, agent: AgentId, thread: ThreadId, table: Table,
                                 messages: seq<Message>)
      ensures Required(messages)
           <= Recorded(log + Unrecorded(BatchEvents(agent, thread, table, messages, |messages|), Recorded(log)))
    {
      hide BatchEvents, Required;
      BatchRecords(agent, thread, table, messages, |messages|);
      assert messages[..|messages|] == messages;
      ProjectionRecords(log, BatchEvents(agent, thread, table, messages, |messages|));
    }

    lemma Written(before: World, agent: AgentId, thread: ThreadId, messages: seq<Message>, table: Table,
                  written: seq<Event>, s: World, moves: seq<Move>, owed: set<Identity>) returns (next: seq<Move>)
      requires written <= Unrecorded(BatchEvents(agent, thread, table, messages, |messages|), Recorded(before.log))
      requires Reaches(wording, s, moves, before) && RecoveryMoves(moves, owed) && Required(messages) <= owed
      ensures Reaches(wording, s, next, before.(log := before.log + written)) && RecoveryMoves(next, owed)
      ensures Checkpointed(next) == Checkpointed(moves)
    {
      hide Reaches, BatchEvents, Required, Checkpointed;
      CheckpointedConcat(moves, Appends(written));
      AppendsCheckpointNothing(written);
      var events := BatchEvents(agent, thread, table, messages, |messages|);
      next := moves + Appends(written);
      BatchRecords(agent, thread, table, messages, |messages|);
      assert messages[..|messages|] == messages;
      AppendsReach(wording, before, events, written);
      AppendsRecover(events, Recorded(before.log), written, owed);
      ReachesConcat(wording, s, moves, before, Appends(written), before.(log := before.log + written));
      RecoveryMovesConcat(moves, Appends(written), owed);
    }

    // ----- Recovery -----

    lemma Concluded(before: World, run: RunId, s: World, moves: seq<Move>, owed: set<Identity>)
      returns (next: seq<Move>)
      requires Enabled(wording, before, Conclude(run)) && Reaches(wording, s, moves, before)
        && RecoveryMoves(moves, owed)
      ensures Reaches(wording, s, next, before.(log := before.log + [CheckpointOf(wording, run, before.states[run])]))
      ensures RecoveryMoves(next, owed) && Checkpointed(next) == Checkpointed(moves) + 1
    {
      CheckpointedConcat(moves, [Conclude(run)]);
      assert [Conclude(run)][..0] == [];
      hide Owed, Completed, Reaches, CheckpointSaved, Checkpointed;
      next := moves + [Conclude(run)];
      Extend(wording, s, moves, before, Conclude(run), Apply(wording, before, Conclude(run)));
      RecoveryMovesConcat(moves, [Conclude(run)], owed);
    }

    /** The tail of one recovery: the checkpoint if still missing, then the journal. */
    method ConcludeAndDrop(run: RunId, saved: Envelope, ghost s: World, ghost moves: seq<Move>,
                           ghost owed: set<Identity>)
      returns (ok: bool, concluded: bool, ghost next: seq<Move>)
      requires Valid() && Decodable(saved) && saved.progress.runId == run
      requires run in states ==> states[run] == saved
      requires NeedsCheckpoint(saved.progress) ==> run in states
      requires Owed(wording, saved) <= Recorded(log)
      requires Reaches(wording, s, moves, State()) && RecoveryMoves(moves, owed)
      modifies this
      ensures Valid() && Reaches(wording, s, next, State()) && RecoveryMoves(next, owed)
      ensures states == old(states) || states == old(states) - {run}
      ensures failures >= old(failures) && (ok <==> failures == old(failures))
      ensures log == old(log) || log == old(log) + [CheckpointOf(wording, run, saved)]
      ensures ok ==> log == old(log) + if concluded then [CheckpointOf(wording, run, saved)] else []
      ensures ok ==> run !in states
      ensures ok ==> (concluded <==> NeedsCheckpoint(saved.progress) && !CheckpointSaved(old(log), run))
      ensures ok ==> Checkpointed(next) == Checkpointed(moves) + if concluded then 1 else 0
    {
      hide Owed, Completed, Reaches, CheckpointSaved, Recorded, Checkpointed;
      ok, concluded, next := true, false, moves;
      ghost var before := State();
      if NeedsCheckpoint(saved.progress) && !CheckpointSaved(log, run) {
        var event := CheckpointOf(wording, run, saved);
        ok := CommitEmbedded(event);
        if log != before.log {
          next := Concluded(before, run, s, moves, owed);
          PrefixSaved(before.log, log, run);
        }
        if !ok {
          return;
        }
        concluded := true;
      }
      before := State();
      ok := Forget(run);
      if states != before.states {
        next := Discarded(before, run, s, next, owed);
      }
    }

    /** One journal: complete it, project it, checkpoint it, drop it. */
    method RecoverOne(run: RunId, saved: Envelope, ghost s: World, ghost moves: seq<Move>)
      returns (ok: bool, concluded: bool, ghost next: seq<Move>)
      requires Valid() && Decodable(saved) && saved.progress.runId == run
      requires run in states ==> states[run] == saved
      requires NeedsCheckpoint(saved.progress) ==> run in states
      requires run in s.states && s.states[run] == saved
      requires Reaches(wording, s, moves, State()) && RecoveryMoves(moves, Known(wording, s))
      modifies this
      ensures Valid() && Reaches(wording, s, next, State()) && RecoveryMoves(next, Known(wording, s))
      ensures forall r | r in states :: r in old(states) && states[r] == old(states)[r]
      ensures forall r | r in old(states) && NeedsCheckpoint(old(states)[r].progress) && r != run :: r in states
      ensures failures >= old(failures) && (ok <==> failures == old(failures) && AllDecodable(old(states)))
      ensures old(log) <= log && Accounted(wording, s.states, |old(log)|, log)
      ensures ok ==> run !in states
      ensures ok ==> Checkpointed(next) == Checkpointed(moves) + if concluded then 1 else 0
    {
      StartsWithin(saved);
      hide Completed, Reaches, CheckpointSaved, Recorded, Required, Checkpointed, FromJournal, ToldIn, AllDecodable;
      hide CheckpointOf, Decodable;
      concluded := false;
      var messages := Completed(wording, saved);
      ghost var table;
      assert Owed(wording, saved) <= Known(wording, s);
      ok, next, table := Persist(saved.agent, saved.thread, messages[saved.progress.start..], s, moves,
                                 Known(wording, s));
      Projections(saved, run, s.states, old(log), log);
      if ok {
        Checkpointing(saved, run, s.states);
        ok, concluded, next := ConcludeAndDrop(run, saved, s, next, Known(wording, s));
      }
    }

    lemma StartsWithin(saved: Envelope)
      requires Decodable(saved)
      ensures saved.progress.start <= |Completed(wording, saved)|
    {
    }

    /** What recovery may write: the checkpoint of a journal, or a part of a
        message that its recovery completes, under that journal's agent and thread. */
    static ghost predicate FromJournal(w: Wording, states: map<RunId, Envelope>, e: Event) {
      exists run :: run in states && Decodable(states[run])
        && (e == CheckpointOf(w, run, states[run])
            || ToldIn(e, states[run].agent, states[run].thread,
                      Completed(w, states[run])[states[run].progress.start..]))
    }

    lemma Projections(saved: Envelope, run: RunId, states: map<RunId, Envelope>, before: seq<Event>, after: seq<Event>)
      requires run in states && states[run] == saved && Decodable(saved)
      requires forall i | |before| <= i < |after| ::
        ToldIn(after[i], saved.agent, saved.thread, Completed(wording, saved)[saved.progress.start..])
      ensures forall i | |before| <= i < |after| :: FromJournal(wording, states, after[i])
    {
      hide ToldIn, Completed, CheckpointOf;
    }

    lemma Checkpointing(saved: Envelope, run: RunId, states: map<RunId, Envelope>)
      requires run in states && states[run] == saved && Decodable(saved)
      ensures FromJournal(wording, states, CheckpointOf(wording, run, saved))
    {
      hide ToldIn, Completed;
    }

    /** `recover_thread`: all journals, or one thread's. However it ends, what is
        recorded or owed stays the same; if it succeeds nothing of that thread is
        left to recover. */
    method RecoverThread(thread: Option<ThreadId>) returns (r: Result<nat>, ghost moves: seq<Move>)
      requires Valid()
      modifies this
      ensures Valid() && Reaches(wording, old(State()), moves, State())
      ensures RecoveryMoves(moves, Known(wording, old(State())))
      ensures Known(wording, State()) == Known(wording, old(State()))
      ensures old(log) <= log && (AtMostOnce(old(log)) ==> AtMostOnce(log))
      ensures r.Ok? ==> forall run | run in old(states)
        && (thread == None || thread == Some(old(states)[run].thread)) :: run !in states
      ensures r.Ok? && thread == None ==> Recorded(log) == Known(wording, old(State()))
      ensures r.Ok? ==> r.value == Checkpointed(moves)
      ensures failures >= old(failures) && (r.Ok? <==> failures == old(failures) && AllDecodable(old(states)))
      ensures Accounted(wording, old(states), |old(log)|, log)
      ensures UnknownsFailed(old(states)) ==> forall i | |old(log)| <= i < |log| :: FailsIfUnknown(log[i])
    {
      hide Known, Reaches, Recorded, NeedsCheckpoint, FromJournal, Decodable, UnknownsFailed, FailsIfUnknown;
      hide AllDecodable, DecodedBut, Accounted, Dwindles, Concerns;
      ghost var s := State();
      var records := states;
      var todo := records.Keys;
      var recovered, ok := 0, true;
      moves := [];
      NothingDecoded(records);
      NothingGone(records, thread);
      NothingYet(s.states, log);
      assert Reaches(wording, s, [], s) by { ReachesNothing(s); }
      while todo != {} && ok
        invariant Valid() && Reaches(wording, s, moves, State()) && RecoveryMoves(moves, Known(wording, s))
        invariant todo <= records.Keys && (ok ==> recovered == Checkpointed(moves))
        invariant Dwindles(records, states, todo, thread, ok)
        invariant failures >= old(failures) && s.log <= log && Accounted(wording, s.states, |s.log|, log)
        invariant ok ==> failures == old(failures) && DecodedBut(records, todo)
        invariant !ok ==> failures > old(failures) || !AllDecodable(records)
        decreases |todo|
      {
        var run :| run in todo;
        var saved := records[run];
        ghost var before, kept, turn := log, states, todo;
        Decoded(records, todo, run);
        DwindlesAt(records, states, todo, thread, run);
        todo := todo - {run};
        if !Decodable(saved) {
          ok := false;
        } else if Concerns(saved, thread) {
          var concluded;
          ok, concluded, moves := RecoverOne(run, saved, s, moves);
          recovered := if ok && concluded then recovered + 1 else recovered;
        }
        AccountedMore(s.states, |s.log|, before, log);
        DwindlesOn(records, kept, turn, thread, run, states, ok);
      }
      RecoveryConverges(wording, s, moves, State());
      LogGrows(s, moves);
      AllFail(s.states, log, |s.log|);
      AllDecoded(records, todo);
      AllGone(records, states, todo, thread, ok);
      r := if ok then Ok(recovered) else Err("recovery stopped");
    }

    /** From here on the log holds only what the journals account for. */
    static ghost predicate Accounted(w: Wording, states: map<RunId, Envelope>, from: nat, log: seq<Event>) {
      forall i | from <= i < |log| :: FromJournal(w, states, log[i])
    }

    lemma NothingYet(states: map<RunId, Envelope>, log: seq<Event>)
      ensures Accounted(wording, states, |log|, log)
    {
    }

    lemma AccountedMore(states: map<RunId, Envelope>, from: nat, before: seq<Event>, log: seq<Event>)
      requires from <= |before| && before <= log
      requires Accounted(wording, states, from, before)
      requires before == log || Accounted(wording, states, |before|, log)
      ensures Accounted(wording, states, from, log)
    {
      hide FromJournal;
    }

    /** The journals left are as they were, none is lost before its turn, and while
        all goes well those that had theirs are gone. */
    static ghost predicate Dwindles(records: map<RunId, Envelope>, states: map<RunId, Envelope>, todo: set<RunId>,
                                    thread: Option<ThreadId>, ok: bool)
    {
      && (forall run | run in states :: run in records && states[run] == records[run])
      && (forall run | run in todo && run in records && NeedsCheckpoint(records[run].progress) :: run in states)
      && (ok ==> forall run | run in records && run !in todo && Concerns(records[run], thread) :: run !in states)
    }

    static predicate Concerns(e: Envelope, thread: Option<ThreadId>) { thread == None || thread == Some(e.thread) }

    static lemma NothingGone(records: map<RunId, Envelope>, thread: Option<ThreadId>)
      ensures Dwindles(records, records, records.Keys, thread, true)
    {
    }

    static lemma DwindlesAt(records: map<RunId, Envelope>, states: map<RunId, Envelope>, todo: set<RunId>,
                            thread: Option<ThreadId>, run: RunId)
      requires Dwindles(records, states, todo, thread, true) && run in todo && run in records
      ensures run in states ==> states[run] == records[run]
      ensures NeedsCheckpoint(records[run].progress) ==> run in states
      ensures !AllDecodable(states) ==> !AllDecodable(records)
    {
      hide NeedsCheckpoint, Decodable;
    }

    static lemma DwindlesOn(records: map<RunId, Envelope>, kept: map<RunId, Envelope>, todo: set<RunId>,
                            thread: Option<ThreadId>, run: RunId, states: map<RunId, Envelope>, ok: bool)
      requires Dwindles(records, kept, todo, thread, true) && run in todo && run in records
      requires forall r | r in states :: r in kept && states[r] == kept[r]
      requires forall r | r in kept && NeedsCheckpoint(kept[r].progress) && r != run :: r in states
      requires ok && Concerns(records[run], thread) ==> run !in states
      ensures Dwindles(records, states, todo - {run}, thread, ok)
    {
      hide NeedsCheckpoint;
    }

    static lemma AllGone(records: map<RunId, Envelope>, states: map<RunId, Envelope>, todo: set<RunId>,
                         thread: Option<ThreadId>, ok: bool)
      requires Dwindles(records, states, todo, thread, ok) && (ok ==> todo == {})
      ensures ok ==> forall run | run in records && (thread == None || thread == Some(records[run].thread)) ::
        run !in states
      ensures ok && thread == None ==> states == map[]
    {
      hide NeedsCheckpoint;
    }

    static ghost predicate DecodedBut(records: map<RunId, Envelope>, todo: set<RunId>) {
      forall run | run in records && run !in todo :: Decodable(records[run])
    }

    static lemma NothingDecoded(records: map<RunId, Envelope>)
      ensures DecodedBut(records, records.Keys)
    {
    }

    static lemma Decoded(records: map<RunId, Envelope>, todo: set<RunId>, run: RunId)
      requires run in records && DecodedBut(records, todo)
      ensures Decodable(records[run]) ==> DecodedBut(records, todo - {run})
      ensures !Decodable(records[run]) ==> !AllDecodable(records)
    {
      hide Decodable;
    }

    static lemma AllDecoded(records: map<RunId, Envelope>, todo: set<RunId>)
      ensures todo == {} && DecodedBut(records, todo) ==> AllDecodable(records)
    {
      hide Decodable;
    }

    /** Results the journals themselves mark as unknown are tool results that did not succeed. */
    static ghost predicate UnknownsFailed(states: map<RunId, Envelope>) {
      forall run, i | run in states && 0 <= i < |states[run].progress.messages| ::
        UnknownFailed(states[run].progress.messages[i])
    }

    static predicate UnknownFailed(m: Message) {
      m.recordId.Some? && m.recordId.value.slot.Unknown? ==> m.role == Tool && m.toolSucceeded == Some(false)
    }

    /** A record under an unknown slot says that its action did not succeed. */
    static predicate FailsIfUnknown(e: Event) {
      e.Record? && e.identity.Some? && e.identity.value.record.slot.Unknown? ==>
        e.item.exchange.Some? && e.item.exchange.value.succeeded == Some(false)
    }

    lemma AllFail(states: map<RunId, Envelope>, log: seq<Event>, from: nat)
      requires Accounted(wording, states, from, log)
      ensures UnknownsFailed(states) ==> forall i | from <= i < |log| :: FailsIfUnknown(log[i])
    {
      hide FromJournal, UnknownsFailed, FailsIfUnknown;
      if UnknownsFailed(states) {
        forall i | from <= i < |log|
          ensures FailsIfUnknown(log[i])
        {
          OneFails(states, log[i]);
        }
      }
    }

    lemma OneFails(states: map<RunId, Envelope>, e: Event)
      requires FromJournal(wording, states, e) && UnknownsFailed(states)
      ensures FailsIfUnknown(e)
    {
      hide Completed, Tells, FailsIfUnknown, UnknownFailed;
      var run :| run in states && Decodable(states[run])
        && (e == CheckpointOf(wording, run, states[run])
            || ToldIn(e, states[run].agent, states[run].thread,
                      Completed(wording, states[run])[states[run].progress.start..]));
      var saved := states[run];
      if ToldIn(e, saved.agent, saved.thread, Completed(wording, saved)[saved.progress.start..]) {
        var k :| 0 <= k < |Completed(wording, saved)[saved.progress.start..]|
          && Tells(e, saved.agent, saved.thread, Completed(wording, saved)[saved.progress.start..][k]);
        CompletedUnknownFailed(saved, saved.progress.start + k);
        ToldFails(e, saved.agent, saved.thread, Completed(wording, saved)[saved.progress.start + k]);
      } else {
        NoRecord(run, saved, e);
      }
    }

    lemma NoRecord(run: RunId, saved: Envelope, e: Event)
      requires e == CheckpointOf(wording, run, saved)
      ensures FailsIfUnknown(e)
    {
      hide Completed;
    }

    static lemma ToldFails(e: Event, agent: AgentId, thread: ThreadId, m: Message)
      requires Tells(e, agent, thread, m) && UnknownFailed(m)
      ensures FailsIfUnknown(e)
    {
      hide Blank;
    }

    lemma CompletedUnknownFailed(saved: Envelope, i: nat)
      requires forall j | 0 <= j < |saved.progress.messages| :: UnknownFailed(saved.progress.messages[j])
      requires i < |Completed(wording, saved)|
      ensures UnknownFailed(Completed(wording, saved)[i])
    {
      hide Completed, KeptMessage, IsSummary, UnknownFailed, Noted;
      if i < |saved.progress.messages| {
        NotedIsKept(wording, saved, i);
        FirstAreNoted(wording, saved, i);
        KeptStillFailed(wording, saved.progress.messages[i], Completed(wording, saved)[i],
                        saved.groundingPending && i >= saved.progress.start);
      } else {
        RecoveredUnknownFailed(saved, i);
      }
    }

    lemma RecoveredUnknownFailed(saved: Envelope, i: nat)
      requires |saved.progress.messages| <= i < |Completed(wording, saved)|
      ensures UnknownFailed(Completed(wording, saved)[i])
    {
      hide Completed, KeptMessage, IsSummary;
      var n := |saved.progress.messages|;
      LaterOnlyIfUnfinished(wording, saved);
      var open := OpenCallsGetUnknownResults(wording, saved);
      if i == n + |open| {
        SummaryIsRecovery(wording, saved, Completed(wording, saved)[..n + |open|], |open|,
                          Completed(wording, saved)[i]);
      } else {
        assert IsUnknownResult(wording, Completed(wording, saved)[n + (i - n)], saved.progress.runId, open[i - n],
                               n + (i - n));
      }
    }

    static lemma KeptStillFailed(w: Wording, before: Message, after: Message, unverified: bool)
      requires KeptMessage(w, before, after, unverified) && UnknownFailed(before)
      ensures UnknownFailed(after)
    {
      hide Blank, EndsWith, TrimEnd;
    }

    static lemma FirstAreNoted(w: Wording, e: Envelope, i: nat)
      requires i < |e.progress.messages|
      ensures Completed(w, e)[i] == Noted(w, e)[i]
    {
      hide Noted, Unknowns, Summary;
    }

    static lemma LaterOnlyIfUnfinished(w: Wording, e: Envelope)
      ensures |Completed(w, e)| > |e.progress.messages| ==> !e.progress.finished
    {
      hide Noted, Unknowns, Summary;
    }

    static lemma SummaryIsRecovery(w: Wording, e: Envelope, told: seq<Message>, pending: nat, m: Message)
      requires IsSummary(w, e, told, pending, m)
      ensures UnknownFailed(m)
    {
      hide SummaryText, TrimEnd;
    }

    lemma ReachesNothing(s: World)
      ensures Reaches(wording, s, [], s)
    {
    }

    lemma {:induction false} LogGrows(s: World, moves: seq<Move>)
      requires Reaches(wording, s, moves, State())
      ensures s.log <= log && (AtMostOnce(s.log) ==> AtMostOnce(log))
    {
      if AtMostOnce(s.log) {
        EachIdentityOnce(wording, s, moves, State());
      } else {
        OnlyGrows(wording, s, moves, State());
      }
    }

    // ----- Local rewrites -----

    /** Replace one journal, as a run. */
    method Rewrite(run: RunId, envelope: Envelope, ghost s: World, ghost moves: seq<Move>)
      returns (ok: bool, ghost next: seq<Move>)
      requires Valid() && Decodable(envelope) && envelope.progress.runId == run && Reaches(wording, s, moves, State())
      modifies this`states, this`failures
      ensures Valid() && Reaches(wording, s, next, State())
      ensures failures == old(failures) + if ok then 0 else 1
      ensures states == old(states)[run := envelope] || (states == old(states) && !ok)
    {
      hide Reaches, Decodable;
      ghost var before := State();
      next := moves;
      ok := Put(run, envelope);
      if states == before.states[run := envelope] {
        next := moves + [Save(run, envelope)];
        Extend(wording, s, moves, before, Save(run, envelope), State());
      }
    }

    /** `finalize_grounding`: only journals of this agent and thread that share a
        record with the returned messages change, and only locally. */
    method FinalizeGrounding(agent: AgentId, thread: ThreadId, returned: seq<Message>, persistStart: nat)
      returns (ok: bool, ghost moves: seq<Move>)
      requires Valid()
      modifies this`states, this`failures
      ensures Valid() && Reaches(wording, old(State()), moves, State())
      ensures states.Keys == old(states).Keys && failures >= old(failures)
      ensures ok <==> failures == old(failures) && AllDecodable(old(states))
      ensures OnlyFinalised(old(states), states, agent, thread, Output(returned, persistStart))
      ensures ok ==> AllFinalised(old(states), states, agent, thread, Output(returned, persistStart))
    {
      hide Touches, Finalized, Output, Reaches, Decodable, OnlyFinalised, AllFinalised, Underway, AllDecodable;
      ghost var s := State();
      var current := ByRecord(Output(returned, persistStart));
      var saved := states;
      ghost var to := map run | run in saved && Decodable(saved[run]) && Touches(saved[run], agent, thread, current) ::
        Finalized(saved[run], current);
      var todo := saved.Keys;
      ok, moves := true, [];
      NothingUnderway(saved, to);
      assert Reaches(wording, s, [], s) by { ReachesNothing(s); }
      while todo != {} && ok
        invariant Valid() && Reaches(wording, s, moves, State())
        invariant todo <= saved.Keys && failures >= old(failures) && Underway(saved, states, to, todo, ok)
        invariant ok ==> failures == old(failures)
        invariant !ok ==> failures > old(failures) || !AllDecodable(saved)
        decreases |todo|
      {
        var run :| run in todo;
        ghost var before := states;
        UnderwayAt(saved, states, to, todo, run);
        if !Decodable(saved[run]) {
          ok := false;
          OneUnreadable(saved, run);
        } else if Touches(saved[run], agent, thread, current) {
          FinalizedDecodes(saved[run], current);
          ok, moves := Rewrite(run, Finalized(saved[run], current), s, moves);
        }
        UnderwayOn(saved, before, to, todo, run, states, ok);
        todo := todo - {run};
      }
      UnderwayEnds(saved, states, to, todo, ok);
      FinalisedExactly(saved, states, agent, thread, Output(returned, persistStart), ok);
    }

    // ----- Rewriting journals one by one -----

    /** Of the journals to be rewritten as `to` says, those in `todo` are still as
        they were; if all went well the others are done. */
    static ghost predicate Underway(saved: map<RunId, Envelope>, now: map<RunId, Envelope>, to: map<RunId, Envelope>,
                                    todo: set<RunId>, ok: bool)
    {
      && now.Keys == saved.Keys
      && (forall run | run in saved :: now[run] == saved[run] || (run in to && now[run] == to[run]))
      && (forall run | run in todo && run in saved :: now[run] == saved[run])
      && (ok ==> forall run | run in saved && run !in todo ::
            Decodable(saved[run]) && (run in to ==> now[run] == to[run]))
    }

    static lemma NothingUnderway(saved: map<RunId, Envelope>, to: map<RunId, Envelope>)
      ensures Underway(saved, saved, to, saved.Keys, true)
    {
    }

    static lemma UnderwayAt(saved: map<RunId, Envelope>, now: map<RunId, Envelope>, to: map<RunId, Envelope>,
                            todo: set<RunId>, run: RunId)
      requires Underway(saved, now, to, todo, true) && run in todo && run in saved
      ensures run in now && now[run] == saved[run]
    {
    }

    static lemma UnderwayOn(saved: map<RunId, Envelope>, before: map<RunId, Envelope>, to: map<RunId, Envelope>,
                            todo: set<RunId>, run: RunId, now: map<RunId, Envelope>, ok: bool)
      requires Underway(saved, before, to, todo, true) && run in todo && run in saved
      requires ok ==> Decodable(saved[run])
      requires now == before || (run in to && now == before[run := to[run]])
      requires ok && run in to ==> now == before[run := to[run]]
      ensures Underway(saved, now, to, todo - {run}, ok)
    {
    }

    static lemma UnderwayEnds(saved: map<RunId, Envelope>, now: map<RunId, Envelope>, to: map<RunId, Envelope>,
                              todo: set<RunId>, ok: bool)
      requires Underway(saved, now, to, todo, ok) && (ok ==> todo == {})
      ensures now.Keys == saved.Keys
      ensures forall run | run in saved && now[run] != saved[run] :: run in to && now[run] == to[run]
      ensures ok ==> AllDecodable(saved) && forall run | run in to && run in saved :: now[run] == to[run]
    {
    }

    static lemma OneUnreadable(saved: map<RunId, Envelope>, run: RunId)
      requires run in saved && !Decodable(saved[run])
      ensures !AllDecodable(saved)
    {
    }

    /** The messages of this turn among those returned. */
    static function Output(returned: seq<Message>, persistStart: nat): (r: seq<Message>)
      ensures persistStart <= |returned| ==> returned[..persistStart] + r == returned
      ensures persistStart > |returned| ==> r == []
    {
      if persistStart <= |returned| then returned[persistStart..] else []
    }

    /** A journal of this agent and thread that shares a record with the output. */
    static ghost predicate Shares(e: Envelope, agent: AgentId, thread: ThreadId, output: seq<Message>) {
      && e.agent == agent && e.thread == thread
      && exists k :: 0 <= k < |e.progress.messages| && Carries(output, e.progress.messages[k])
    }

    static ghost predicate OnlyFinalised(before: map<RunId, Envelope>, after: map<RunId, Envelope>, agent: AgentId,
                                         thread: ThreadId, output: seq<Message>)
    {
      forall run | run in before && run in after && after[run] != before[run] ::
        Decodable(before[run]) && Shares(before[run], agent, thread, output)
          && Finalises(before[run], output, after[run])
    }

    static ghost predicate AllFinalised(before: map<RunId, Envelope>, after: map<RunId, Envelope>, agent: AgentId,
                                        thread: ThreadId, output: seq<Message>)
    {
      forall run | run in before && run in after && Shares(before[run], agent, thread, output) ::
        Decodable(before[run]) && Finalises(before[run], output, after[run])
    }

    static lemma FinalisedExactly(before: map<RunId, Envelope>, after: map<RunId, Envelope>, agent: AgentId,
                                  thread: ThreadId, output: seq<Message>, ok: bool)
      requires before.Keys == after.Keys
      requires forall run | run in after && after[run] != before[run] ::
        Decodable(before[run]) && Touches(before[run], agent, thread, ByRecord(output))
          && after[run] == Finalized(before[run], ByRecord(output))
      requires ok ==> AllDecodable(before)
      requires ok ==> forall run | run in after && Decodable(before[run])
        && Touches(before[run], agent, thread, ByRecord(output)) ::
          after[run] == Finalized(before[run], ByRecord(output))
      ensures OnlyFinalised(before, after, agent, thread, output)
      ensures ok ==> AllFinalised(before, after, agent, thread, output)
    {
      hide Decodable, Touches, Finalized, ByRecord, Shares, Finalises, Carries;
      forall run | run in before && Decodable(before[run])
        ensures Touches(before[run], agent, thread, ByRecord(output)) <==> Shares(before[run], agent, thread, output)
        ensures Finalises(before[run], output, Finalized(before[run], ByRecord(output)))
      {
        FinalizedExactly(before[run], output, agent, thread);
        assert Shares(before[run], agent, thread, output) <==>
          && before[run].agent == agent && before[run].thread == thread
          && exists k :: 0 <= k < |before[run].progress.messages| && Carries(output, before[run].progress.messages[k])
          by { SharesMeans(before[run], agent, thread, output); }
      }
    }

    static lemma SharesMeans(e: Envelope, agent: AgentId, thread: ThreadId, output: seq<Message>)
      ensures Shares(e, agent, thread, output) <==>
        && e.agent == agent && e.thread == thread
        && exists k :: 0 <= k < |e.progress.messages| && Carries(output, e.progress.messages[k])
    {
      hide Carries;
    }

    static lemma FinalizedDecodes(e: Envelope, current: map<RecordId, Message>)
      requires Decodable(e)
      ensures Decodable(Finalized(e, current)) && Finalized(e, current).progress.runId == e.progress.runId
    {
    }

    /** `finish_child_checkin`: a child that reported final is not a stopped run. */
    method FinishChildCheckin(thread: ThreadId) returns (ok: bool, ghost moves: seq<Move>)
      requires Valid()
      modifies this`states, this`failures
      ensures Valid() && Reaches(wording, old(State()), moves, State())
      ensures states.Keys == old(states).Keys && failures >= old(failures)
      ensures ok <==> failures == old(failures) && AllDecodable(old(states))
      ensures OnlyChecked(old(states), states, thread) && (ok ==> NoneStopped(states, thread))
    {
      hide Reaches, Decodable, NeedsCheckpoint, FinishedIn, Checked, OnlyChecked, NoneStopped, Underway, AllDecodable;
      ghost var s := State();
      var saved := states;
      ghost var to := map run | run in saved && Decodable(saved[run]) && FinishedIn(saved[run], thread) ::
        Checked(saved[run]);
      var todo := saved.Keys;
      ok, moves := true, [];
      NothingUnderway(saved, to);
      assert Reaches(wording, s, [], s) by { ReachesNothing(s); }
      while todo != {} && ok
        invariant Valid() && Reaches(wording, s, moves, State())
        invariant todo <= saved.Keys && failures >= old(failures) && Underway(saved, states, to, todo, ok)
        invariant ok ==> failures == old(failures)
        invariant !ok ==> failures > old(failures) || !AllDecodable(saved)
        decreases |todo|
      {
        var run :| run in todo;
        ghost var before := states;
        UnderwayAt(saved, states, to, todo, run);
        if !Decodable(saved[run]) {
          ok := false;
          OneUnreadable(saved, run);
        } else if FinishedIn(saved[run], thread) {
          CheckedIsFinished(saved[run], thread);
          ok, moves := Rewrite(run, Checked(saved[run]), s, moves);
        }
        UnderwayOn(saved, before, to, todo, run, states, ok);
        todo := todo - {run};
      }
      UnderwayEnds(saved, states, to, todo, ok);
      CheckedExactly(saved, states, thread, ok);
    }

    /** What changed are finished journals of the thread, and only in no longer being stopped. */
    static ghost predicate OnlyChecked(before: map<RunId, Envelope>, after: map<RunId, Envelope>, thread: ThreadId) {
      forall run | run in before && run in after && after[run] != before[run] ::
        && before[run].thread == thread && before[run].progress.finished
        && after[run] == before[run].(progress := before[run].progress.(stopped := false))
    }

    /** No finished journal of the thread still counts as stopped. */
    static ghost predicate NoneStopped(after: map<RunId, Envelope>, thread: ThreadId) {
      forall run | run in after && after[run].thread == thread && after[run].progress.finished ::
        !after[run].progress.stopped && !NeedsCheckpoint(after[run].progress)
    }

    static lemma CheckedExactly(before: map<RunId, Envelope>, after: map<RunId, Envelope>, thread: ThreadId, ok: bool)
      requires before.Keys == after.Keys
      requires forall run | run in after && after[run] != before[run] ::
        FinishedIn(before[run], thread) && after[run] == Checked(before[run])
      requires ok ==> AllDecodable(before)
      requires ok ==> forall run | run in after && Decodable(before[run]) && FinishedIn(before[run], thread) ::
        after[run] == Checked(before[run])
      ensures OnlyChecked(before, after, thread)
      ensures ok ==> NoneStopped(after, thread)
    {
    }

    static predicate FinishedIn(e: Envelope, thread: ThreadId) { e.thread == thread && e.progress.finished }

    static lemma CheckedIsFinished(e: Envelope, thread: ThreadId)
      requires Decodable(e) && FinishedIn(e, thread)
      ensures Decodable(Checked(e)) && Checked(e).progress.runId == e.progress.runId
      ensures !NeedsCheckpoint(Checked(e).progress)
    {
    }

    static function Checked(e: Envelope): Envelope { e.(progress := e.progress.(stopped := false)) }
  }
}

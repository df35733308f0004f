/** Runs of the transcript protocol: single durable effects on the log and the
    journals, in any order, with a stop possible between any two of them. */
module TranscriptRuns {
  import opened Collections
  import opened Messages
  import opened Transcript

  datatype World = World(log: seq<Event>, states: map<RunId, Envelope>)

  datatype Move =
    | Append(event: Event)
    | Conclude(run: RunId)
    | Discard(run: RunId)
    | Save(run: RunId, envelope: Envelope)

  predicate Owns(run: RunId, messages: seq<Message>) {
    exists i | 0 <= i < |messages| :: messages[i].recordId.Some? && messages[i].recordId.value.run == run
  }

  /** `checkpoint_saved`: some checkpoint holds a message of this run. */
  predicate CheckpointSaved(log: seq<Event>, run: RunId) {
    exists i | 0 <= i < |log| :: log[i].Checkpoint? && Owns(run, log[i].messages)
  }

  predicate NeedsCheckpoint(p: Progress) { !p.finished || p.stopped }

  /** The checkpoint recovery would write for a journal. */
  function CheckpointOf(w: Wording, run: RunId, e: Envelope): Event { Checkpoint(run, Completed(w, e)) }

  ghost predicate JournalAt(s: World, run: RunId) {
    run in s.states && Decodable(s.states[run]) && s.states[run].progress.runId == run
  }

  ghost predicate Enabled(w: Wording, s: World, move: Move) {
    match move
    case Append(event) => IdsOf(event) !! Recorded(s.log)
    case Conclude(run) =>
      && JournalAt(s, run) && NeedsCheckpoint(s.states[run].progress)
      && Owed(w, s.states[run]) <= Recorded(s.log) && !CheckpointSaved(s.log, run)
    case Discard(run) => run in s.states ==>
      && JournalAt(s, run) && Owed(w, s.states[run]) <= Recorded(s.log)
      && (NeedsCheckpoint(s.states[run].progress) ==>
            CheckpointSaved(s.log, run) || CheckpointOf(w, run, s.states[run]) in s.log)
    case Save(run, envelope) => Decodable(envelope) && envelope.progress.runId == run
  }

  ghost function Apply(w: Wording, s: World, move: Move): World
    requires Enabled(w, s, move)
  {
    match move
    case Append(event) => s.(log := s.log + [event])
    case Conclude(run) => s.(log := s.log + [CheckpointOf(w, run, s.states[run])])
    case Discard(run) => s.(states := s.states - {run})
    case Save(run, envelope) => s.(states := s.states[run := envelope])
  }

  ghost predicate Reaches(w: Wording, s: World, moves: seq<Move>, t: World)
    decreases |moves|
  {
    if moves == [] then s == t
    else Enabled(w, s, moves[0]) && Reaches(w, Apply(w, s, moves[0]), moves[1..], t)
  }

  lemma {:induction false} ReachesConcat(w: Wording, s: World, a: seq<Move>, m: World, b: seq<Move>, t: World)
    requires Reaches(w, s, a, m) && Reaches(w, m, b, t)
    ensures Reaches(w, s, a + b, t)
    decreases |a|
  {
    hide Enabled, Apply;
    if a == [] {
      assert a + b == b;
    } else {
      assert (a + b)[1..] == a[1..] + b;
      ReachesConcat(w, Apply(w, s, a[0]), a[1..], m, b, t);
    }
  }

  /** A run so far, followed by one more move. */
  lemma Extend(w: Wording, s: World, moves: seq<Move>, m: World, move: Move, t: World)
    requires Reaches(w, s, moves, m) && Enabled(w, m, move) && t == Apply(w, m, move)
    ensures Reaches(w, s, moves + [move], t)
  {
    hide Enabled, Apply;
    assert [move][1..] == [];
    assert Reaches(w, m, [move], t);
    ReachesConcat(w, s, moves, m, [move], t);
  }

  // ----- Safety over every run -----

  lemma MoveKeepsOnce(w: Wording, s: World, move: Move)
    requires AtMostOnce(s.log) && Enabled(w, s, move)
    ensures AtMostOnce(Apply(w, s, move).log) && s.log <= Apply(w, s, move).log
  {
    hide Owed, Completed, CheckpointSaved;
    match move
    case Append(event) => AppendOnce(s.log, event);
    case Conclude(run) => AppendOnce(s.log, CheckpointOf(w, run, s.states[run]));
    case Discard(run) =>
    case Save(run, envelope) =>
  }

  /** However recoveries stop and start again, the log only grows and no record
      identity appears in it twice. */
  lemma {:induction false} EachIdentityOnce(w: Wording, s: World, moves: seq<Move>, t: World)
    requires AtMostOnce(s.log) && Reaches(w, s, moves, t)
    ensures AtMostOnce(t.log) && s.log <= t.log
    decreases |moves|
  {
    hide Enabled, Apply;
    if moves != [] {
      MoveKeepsOnce(w, s, moves[0]);
      EachIdentityOnce(w, Apply(w, s, moves[0]), moves[1..], t);
    }
  }

  lemma {:induction false} OnlyGrows(w: Wording, s: World, moves: seq<Move>, t: World)
    requires Reaches(w, s, moves, t)
    ensures s.log <= t.log
    decreases |moves|
  {
    hide Owed, Completed, CheckpointSaved;
    if moves != [] {
      OnlyGrows(w, Apply(w, s, moves[0]), moves[1..], t);
    }
  }

  lemma PrefixSaved(log: seq<Event>, more: seq<Event>, run: RunId)
    requires log <= more
    ensures CheckpointSaved(log, run) ==> CheckpointSaved(more, run)
    ensures Recorded(log) <= Recorded(more)
  {
    assert more == log + more[|log|..];
    RecordedConcat(log, more[|log|..]);
    if i :| 0 <= i < |log| && log[i].Checkpoint? && Owns(run, log[i].messages) {
      assert more[i] == log[i];
    }
  }

  /** A recovered journal names its own run: always when it was interrupted,
      since it then ends in the run's summary, and otherwise only if it already did. */
  lemma OwnsAfterRecovery(w: Wording, run: RunId, e: Envelope)
    requires e.progress.runId == run
    ensures Owns(run, Completed(w, e)) <==> !e.progress.finished || Owns(run, e.progress.messages)
  {
    hide Noted, OpenCalls, Unknowns, Summary;
    CaveatChangesText(w, e);
    var all := Completed(w, e);
    if e.progress.finished {
      assert forall i | 0 <= i < |all| :: all[i].recordId == e.progress.messages[i].recordId;
    } else {
      SummaryIsSaid(w, e.progress.(messages := Noted(w, e) + Unknowns(w, e)), |OpenCalls(w, e)|, e.groundingPending);
      assert all[|all| - 1].recordId == Some(RecordId(run, Recovery));
    }
  }

  /** Writing a run's recovery checkpoint rules out writing another exactly when
      the journal, if finished, holds a message of its own run. */
  lemma CheckpointBlocksItself(w: Wording, s: World, run: RunId)
    requires Enabled(w, s, Conclude(run))
    ensures Enabled(w, Apply(w, s, Conclude(run)), Conclude(run)) <==>
      s.states[run].progress.finished && !Owns(run, s.states[run].progress.messages)
    ensures CheckpointSaved(Apply(w, s, Conclude(run)).log, run) <==> OwnIfFinished(run, s.states[run])
  {
    hide Owed, Completed;
    OwnsAfterRecovery(w, run, s.states[run]);
    var e := CheckpointOf(w, run, s.states[run]);
    var after := s.log + [e];
    PrefixSaved(s.log, after, run);
    assert after[|s.log|] == e;
    assert forall i | 0 <= i < |s.log| :: s.log[i] == after[i];
  }

  /** Every journal this run saves, if it is finished and stopped, has a message of its own run. */
  ghost predicate SavesOwn(moves: seq<Move>, run: RunId) {
    forall i | 0 <= i < |moves| && moves[i].Save? && moves[i].run == run :: OwnIfFinished(run, moves[i].envelope)
  }

  predicate OwnIfFinished(run: RunId, e: Envelope) {
    e.progress.finished ==> Owns(run, e.progress.messages)
  }

  function Conclusions(moves: seq<Move>, run: RunId): nat {
    if moves == [] then 0
    else (if moves[0] == Conclude(run) then 1 else 0) + Conclusions(moves[1..], run)
  }

  /** Recovery checkpoints written, whatever the run. */
  function Checkpointed(moves: seq<Move>): nat {
    if moves == [] then 0 else Checkpointed(moves[..|moves| - 1]) + if moves[|moves| - 1].Conclude? then 1 else 0
  }

  lemma {:induction false} CheckpointedConcat(a: seq<Move>, b: seq<Move>)
    ensures Checkpointed(a + b) == Checkpointed(a) + Checkpointed(b)
    decreases |b|
  {
    if b == [] {
      assert a + b == a;
    } else {
      assert (a + b)[..|a + b| - 1] == a + b[..|b| - 1];
      CheckpointedConcat(a, b[..|b| - 1]);
    }
  }

  lemma {:induction false} AppendsCheckpointNothing(events: seq<Event>)
    ensures Checkpointed(Appends(events)) == 0
    decreases |events|
  {
    if events != [] {
      assert Appends(events)[..|events| - 1] == Appends(events[..|events| - 1]);
      AppendsCheckpointNothing(events[..|events| - 1]);
    }
  }

  lemma {:induction false} NoneAfterSaved(w: Wording, s: World, moves: seq<Move>, t: World, run: RunId)
    requires Reaches(w, s, moves, t) && CheckpointSaved(s.log, run)
    ensures Conclusions(moves, run) == 0
    decreases |moves|
  {
    hide Owed, Completed;
    if moves != [] {
      var next := Apply(w, s, moves[0]);
      assert s.log <= next.log;
      PrefixSaved(s.log, next.log, run);
      NoneAfterSaved(w, next, moves[1..], t, run);
    }
  }

  /** Over any run, each tool run gets at most one recovery checkpoint. */
  lemma {:induction false} OneRecoveryCheckpoint(w: Wording, s: World, moves: seq<Move>, t: World, run: RunId)
    requires Reaches(w, s, moves, t) && SavesOwn(moves, run)
    requires run in s.states ==> OwnIfFinished(run, s.states[run])
    ensures Conclusions(moves, run) <= 1
    decreases |moves|
  {
    hide Owed, Completed;
    if moves != [] {
      var next := Apply(w, s, moves[0]);
      if moves[0] == Conclude(run) {
        CheckpointBlocksItself(w, s, run);
        NoneAfterSaved(w, next, moves[1..], t, run);
      } else {
        assert moves[0].Save? && moves[0].run == run ==> OwnIfFinished(run, moves[0].envelope);
        assert forall i | 0 <= i < |moves[1..]| :: moves[1..][i] == moves[i + 1];
        OneRecoveryCheckpoint(w, next, moves[1..], t, run);
      }
    }
  }

  /** Without such a message the bound fails: a stop between writing the
      checkpoint and dropping the journal leads to a second checkpoint. */
  lemma SecondCheckpoint(w: Wording) returns (s: World, t: World, moves: seq<Move>)
    ensures Reaches(w, s, moves, t) && Conclusions(moves, "r") == 2
    ensures JournalAt(s, "r") && s.states["r"].progress.finished && s.states["r"].progress.stopped
  {
    var e := Envelope(1, 0, 0, Progress("r", 0, [], "task", true, true), false);
    s := World([], map["r" := e]);
    moves := [Conclude("r"), Conclude("r")];
    assert Owed(w, e) == {};
    assert Enabled(w, s, Conclude("r"));
    CheckpointBlocksItself(w, s, "r");
    var middle := Apply(w, s, Conclude("r"));
    t := Apply(w, middle, Conclude("r"));
    assert moves[1..] == [Conclude("r")];
    assert Reaches(w, middle, [Conclude("r")], t);
  }

  // ----- Journals go only when everything they require is recorded -----

  function Occurrences(log: seq<Event>, id: Identity): set<nat> { set i | 0 <= i < |log| && id in IdsOf(log[i]) }

  lemma RecordedOnce(log: seq<Event>, id: Identity)
    requires AtMostOnce(log) && id in Recorded(log)
    ensures |Occurrences(log, id)| == 1
  {
    var i :| 0 <= i < |log| && id in IdsOf(log[i]);
    assert Occurrences(log, id) == {i};
  }

  /** From the moment its journal is discarded, each identity it owed stands in
      the log exactly once, whatever follows. */
  lemma DiscardedExactlyOnce(w: Wording, s: World, run: RunId, moves: seq<Move>, t: World)
    requires AtMostOnce(s.log) && run in s.states && Enabled(w, s, Discard(run))
    requires Reaches(w, Apply(w, s, Discard(run)), moves, t)
    ensures forall id | id in Owed(w, s.states[run]) :: |Occurrences(t.log, id)| == 1
  {
    hide Owed, Completed, CheckpointSaved, Reaches;
    EachIdentityOnce(w, Apply(w, s, Discard(run)), moves, t);
    PrefixSaved(s.log, t.log, run);
    forall id | id in Owed(w, s.states[run])
      ensures |Occurrences(t.log, id)| == 1
    {
      RecordedOnce(t.log, id);
    }
  }

  // ----- What is owed survives every interruption -----

  /** Everything recorded or still owed. */
  ghost function Known(w: Wording, s: World): set<Identity> {
    Recorded(s.log) + set run, id | run in s.states && Decodable(s.states[run]) && id in Owed(w, s.states[run]) :: id
  }

  /** A move recovery may make: it records only what is owed. */
  ghost predicate Recovers(move: Move, owed: set<Identity>) {
    match move
    case Append(event) => IdsOf(event) <= owed
    case Conclude(_) => true
    case Discard(_) => true
    case Save(_, _) => false
  }

  ghost predicate RecoveryMoves(moves: seq<Move>, owed: set<Identity>) {
    forall i {:trigger Recovers(moves[i], owed)} | 0 <= i < |moves| :: Recovers(moves[i], owed)
  }

  lemma RecoveryMovesConcat(a: seq<Move>, b: seq<Move>, owed: set<Identity>)
    requires RecoveryMoves(a, owed) && RecoveryMoves(b, owed)
    ensures RecoveryMoves(a + b, owed)
  {
    forall i | 0 <= i < |a + b|
      ensures Recovers((a + b)[i], owed)
    {
      assert i < |a| ==> Recovers(a[i], owed);
      assert i >= |a| ==> Recovers(b[i - |a|], owed);
    }
  }

  lemma RecoveryKeepsKnown(w: Wording, s: World, move: Move)
    requires Enabled(w, s, move) && Recovers(move, Known(w, s))
    ensures Known(w, Apply(w, s, move)) == Known(w, s)
  {
    hide Owed, Completed, CheckpointSaved;
    var t := Apply(w, s, move);
    if move.Append? || move.Conclude? {
      var e := t.log[|s.log|];
      assert t.log == s.log + [e];
      RecordedConcat(s.log, [e]);
      RecordedOne(e);
    } else {
      forall run, id | run in s.states && Decodable(s.states[run]) && id in Owed(w, s.states[run])
        ensures id in Known(w, t)
      {
        assert run != move.run ==> run in t.states && t.states[run] == s.states[run];
      }
    }
  }

  /** However often recovery is cut short and begun again, once no readable
      journal is left the log holds exactly what it held and everything owed. */
  lemma {:induction false} RecoveryConverges(w: Wording, s: World, moves: seq<Move>, t: World)
    requires Reaches(w, s, moves, t) && RecoveryMoves(moves, Known(w, s))
    ensures Known(w, t) == Known(w, s)
    ensures t.states == map[] ==> Recorded(t.log) == Known(w, s)
    decreases |moves|
  {
    hide Enabled, Apply, Owed;
    if moves != [] {
      assert Recovers(moves[0], Known(w, s));
      RecoveryKeepsKnown(w, s, moves[0]);
      forall i | 0 <= i < |moves[1..]|
        ensures Recovers(moves[1..][i], Known(w, s))
      {
        assert Recovers(moves[i + 1], Known(w, s));
      }
      RecoveryConverges(w, Apply(w, s, moves[0]), moves[1..], t);
    }
  }

  // ----- Projecting a batch, as a run -----

  function Appends(events: seq<Event>): (r: seq<Move>)
    ensures |r| == |events|
  {
    seq(|events|, i requires 0 <= i < |events| => Append(events[i]))
  }

  lemma {:induction false} AppendsReach(w: Wording, s: World, events: seq<Event>, written: seq<Event>)
    requires written <= Unrecorded(events, Recorded(s.log))
    ensures Reaches(w, s, Appends(written), s.(log := s.log + written))
    decreases |events|
  {
    if written == [] {
      assert s.log + [] == s.log;
    } else if IdsOf(events[0]) * Recorded(s.log) != {} {
      AppendsReach(w, s, events[1..], written);
    } else {
      var e := events[0];
      var next := s.(log := s.log + [e]);
      RecordedConcat(s.log, [e]);
      RecordedOne(e);
      AppendsReach(w, next, events[1..], written[1..]);
      assert Appends(written)[1..] == Appends(written[1..]);
      assert s.log + written == s.log + [e] + written[1..];
    }
  }

  lemma {:induction false} UnrecordedIsFrom(events: seq<Event>, recorded: set<Identity>)
    ensures forall e | e in Unrecorded(events, recorded) :: e in events
    decreases |events|
  {
    if events != [] {
      UnrecordedIsFrom(events[1..], recorded);
      UnrecordedIsFrom(events[1..], recorded + IdsOf(events[0]));
    }
  }

  lemma AppendsRecover(events: seq<Event>, recorded: set<Identity>, written: seq<Event>, owed: set<Identity>)
    requires written <= Unrecorded(events, recorded) && Recorded(events) <= owed
    ensures RecoveryMoves(Appends(written), owed)
  {
    UnrecordedIsFrom(events, recorded);
    forall i | 0 <= i < |written|
      ensures Recovers(Appends(written)[i], owed)
    {
      assert written[i] == Unrecorded(events, recorded)[i];
      assert written[i] in events;
      var k :| 0 <= k < |events| && events[k] == written[i];
      assert IdsOf(written[i]) <= Recorded(events);
    }
  }
}

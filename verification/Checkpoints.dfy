/** Resumable checkpoints in the canonical log, the markers that consume them,
    and the chat session that resumes each at most once. */
module Checkpoints {
  import opened Collections

  type EventId = nat
  type AgentId = nat
  type ThreadId = nat

  /** A saved harness state, whose contents do not matter here. */
  type Plan = nat

  datatype Role = Operator | Participant
  datatype Kind = Control | Conversation
  datatype RecordType = CheckpointConsumed | HarnessCheckpoint | OtherRecord
  datatype Tag = ConsumedOutcome | GracefulStop | OtherOutcome

  datatype Consumption = Consumption(schema: nat, eventId: string)

  datatype Interaction = Interaction(
    agent: AgentId, thread: ThreadId, role: Role, kind: Kind, outcome: Option<Tag>,
    recordType: Option<RecordType>, checkpointEventId: Option<string>, harnessId: Option<string>,
    inline: Option<string>, hasTool: bool, attachments: nat)

  datatype Logged = Logged(id: EventId, body: Interaction)

  /** Printing and parsing of identifiers and payloads, and the payload's own checks. */
  datatype Codec = Codec(
    show: EventId -> string, parse: string -> Option<EventId>,
    emit: Consumption -> string, read: string -> Option<Consumption>,
    write: Plan -> string, load: string -> Option<Plan>,
    harness: Plan -> string, sound: Plan -> bool)
  {
    ghost predicate Valid() {
      && (forall id: EventId :: parse(show(id)) == Some(id))
      && (forall c: Consumption :: read(emit(c)) == Some(c))
      && (forall p: Plan :: load(write(p)) == Some(p))
    }
  }

  // ----- Markers -----

  /** `consumed_checkpoint_id`. */
  function ConsumedId(codec: Codec, i: Interaction): Result<EventId> {
    if i.role != Operator || i.kind != Control || i.outcome != Some(ConsumedOutcome) || i.hasTool || i.attachments != 0
    then Err("checkpoint consumption record has an invalid envelope")
    else if i.checkpointEventId.None? then Err("checkpoint consumption record is missing its event id")
    else if i.inline.None? then Err("checkpoint consumption record is not inline JSON")
    else
      var record := codec.read(i.inline.value);
      if record.None? then Err("invalid checkpoint consumption JSON")
      else if record.value.schema != 1 || record.value.eventId != i.checkpointEventId.value
      then Err("checkpoint consumption metadata does not match its payload")
      else
        var id := codec.parse(i.checkpointEventId.value);
        if id.None? then Err("checkpoint consumption event id is invalid") else Ok(id.value)
  }

  /** `checkpoint_consumption_interaction`. */
  function ConsumptionOf(codec: Codec, id: EventId, agent: AgentId, thread: ThreadId): Interaction {
    Interaction(agent, thread, Operator, Control, Some(ConsumedOutcome), Some(CheckpointConsumed), Some(codec.show(id)),
                None,
                Some(codec.emit(Consumption(1, codec.show(id)))), false, 0)
  }

  /** A marker written for a checkpoint reads back as that checkpoint's, and counts
      for its own agent and thread alone. */
  lemma MarkerRoundTrip(codec: Codec, id: EventId, agent: AgentId, thread: ThreadId)
    requires codec.Valid()
    ensures ConsumedId(codec, ConsumptionOf(codec, id, agent, thread)) == Ok(id)
    ensures forall o, at ::
      Marks(codec, o, Logged(at, ConsumptionOf(codec, id, agent, thread)), id) <==> o == Owner(agent, thread)
  {
    assert codec.read(codec.emit(Consumption(1, codec.show(id)))) == Some(Consumption(1, codec.show(id)));
  }

  /** What reads as a marker, and of what: an operator's control record without
      tool or attachments, whose inline payload is of the first schema and names
      the same event as its metadata. */
  lemma MarkerExactly(codec: Codec, i: Interaction, id: EventId)
    ensures ConsumedId(codec, i) == Ok(id) <==>
      && i.role == Operator && i.kind == Control && i.outcome == Some(ConsumedOutcome)
      && !i.hasTool && i.attachments == 0
      && i.checkpointEventId.Some? && i.inline.Some?
      && codec.read(i.inline.value) == Some(Consumption(1, i.checkpointEventId.value))
      && codec.parse(i.checkpointEventId.value) == Some(id)
  {
  }

  /** `HarnessCheckpoint::to_interaction` and `from_interaction`. */
  function ToInteraction(codec: Codec, plan: Plan, agent: AgentId, thread: ThreadId): Result<Interaction> {
    if !codec.sound(plan) then Err("invalid checkpoint") else
      Ok(Interaction(agent, thread, Operator, Control, Some(GracefulStop), Some(HarnessCheckpoint), None,
                     Some(codec.harness(plan)),
                     Some(codec.write(plan)), false, 0))
  }

  function FromInteraction(codec: Codec, i: Interaction): Result<Plan> {
    if i.role != Operator || i.kind != Control || i.outcome != Some(GracefulStop)
      || i.recordType != Some(HarnessCheckpoint)
       || i.hasTool || i.attachments != 0
    then Err("persisted record does not have the checkpoint envelope")
    else if i.inline.None? then Err("checkpoint content is not inline JSON")
    else
      var plan := codec.load(i.inline.value);
      if plan.None? then Err("invalid checkpoint JSON")
      else if !codec.sound(plan.value) then Err("invalid checkpoint")
      else if i.harnessId != Some(codec.harness(plan.value)) then Err("checkpoint metadata does not match its payload")
      else Ok(plan.value)
  }

  /** A sound checkpoint reads back, and is found by its own agent and thread alone. */
  lemma CheckpointRoundTrip(codec: Codec, plan: Plan, agent: AgentId, thread: ThreadId)
    requires codec.Valid() && codec.sound(plan)
    ensures ToInteraction(codec, plan, agent, thread).Ok?
    ensures FromInteraction(codec, ToInteraction(codec, plan, agent, thread).value) == Ok(plan)
    ensures forall o, at ::
      IsCheckpoint(o, Logged(at, ToInteraction(codec, plan, agent, thread).value)) <==> o == Owner(agent, thread)
  {
    assert codec.load(codec.write(plan)) == Some(plan);
  }

  /** What reads as a checkpoint, and of what plan: the same envelope with its own
      outcome and record type, whose payload is sound and names its harness. */
  lemma CheckpointExactly(codec: Codec, i: Interaction, plan: Plan)
    ensures FromInteraction(codec, i) == Ok(plan) <==>
      && i.role == Operator && i.kind == Control && i.outcome == Some(GracefulStop)
      && i.recordType == Some(HarnessCheckpoint) && !i.hasTool && i.attachments == 0
      && i.inline.Some? && codec.load(i.inline.value) == Some(plan)
      && codec.sound(plan) && i.harnessId == Some(codec.harness(plan))
  {
  }

  // ----- Reading the log -----

  /** Whose checkpoints: one agent in one thread. */
  datatype Owner = Owner(agent: AgentId, thread: ThreadId)

  predicate Ours(o: Owner, e: Logged) { e.body.agent == o.agent && e.body.thread == o.thread }

  predicate IsMarker(o: Owner, e: Logged) { Ours(o, e) && e.body.recordType == Some(CheckpointConsumed) }

  predicate IsCheckpoint(o: Owner, e: Logged) { Ours(o, e) && e.body.recordType == Some(HarnessCheckpoint) }

  predicate Marks(codec: Codec, o: Owner, e: Logged, id: EventId) {
    IsMarker(o, e) && ConsumedId(codec, e.body) == Ok(id)
  }

  predicate Malformed(codec: Codec, o: Owner, e: Logged) { IsMarker(o, e) && ConsumedId(codec, e.body).Err? }

  ghost predicate Consumed(codec: Codec, o: Owner, log: seq<Logged>, id: EventId) {
    exists i | 0 <= i < |log| :: Marks(codec, o, log[i], id)
  }

  /** `exact_checkpoint_consumed`: any malformed marker leaves absence uncertain. */
  method ExactlyConsumed(codec: Codec, o: Owner, log: seq<Logged>, id: EventId) returns (r: Result<bool>)
    ensures r.Err? <==> exists i | 0 <= i < |log| :: Malformed(codec, o, log[i])
    ensures r.Ok? ==> (r.value <==> Consumed(codec, o, log, id))
  {
    var consumed := false;
    for i := 0 to |log|
      invariant consumed <==> exists k | 0 <= k < i :: Marks(codec, o, log[k], id)
      invariant forall k | 0 <= k < i :: !Malformed(codec, o, log[k])
    {
      if IsMarker(o, log[i]) {
        var marked := ConsumedId(codec, log[i].body);
        if marked.Err? {
          assert Malformed(codec, o, log[i]);
          return Err(marked.error);
        }
        consumed := consumed || marked.value == id;
      }
    }
    r := Ok(consumed);
  }

  datatype Held = Held(plan: Plan, id: EventId)

  datatype Discovery = Available(held: Held) | Rejected | Absent

  /** The newest checkpoint record of ours, if it exists. */
  ghost predicate Newest(o: Owner, log: seq<Logged>, i: nat) {
    i < |log| && IsCheckpoint(o, log[i]) && forall k | i < k < |log| :: !IsCheckpoint(o, log[k])
  }

  ghost predicate MarkedAfter(codec: Codec, o: Owner, log: seq<Logged>, i: nat, id: EventId) {
    exists k | i < k < |log| :: Marks(codec, o, log[k], id)
  }

  /** The `i`th event is an unreadable marker or an unmarked unreadable checkpoint
      of ours, with no unreadable marker and no checkpoint after it. */
  ghost predicate Refuses(codec: Codec, o: Owner, log: seq<Logged>, i: nat) {
    && i < |log| && (forall k | i < k < |log| :: !Malformed(codec, o, log[k]) && !IsCheckpoint(o, log[k]))
    && (Malformed(codec, o, log[i])
        || (IsCheckpoint(o, log[i]) && !MarkedAfter(codec, o, log, i, log[i].id)
            && FromInteraction(codec, log[i].body).Err?))
  }

  /** `discover_persisted_checkpoint`: newest first; a checkpoint is available
      exactly when it is our newest, reads back, has no later marker of its own
      and no later marker is unreadable. It is rejected exactly when, newest
      first, an unreadable marker or an unmarked unreadable checkpoint comes up. */
  method Discover(codec: Codec, o: Owner, log: seq<Logged>) returns (d: Discovery)
    ensures forall h: Held :: d == Available(h) <==> exists i: nat :: Offers(codec, o, log, i, h)
    ensures d == Rejected <==> exists i: nat :: Refuses(codec, o, log, i)
  {
    hide ConsumedId, FromInteraction;
    var consumed: set<EventId> := {};
    var n := |log|;
    while n > 0
      invariant 0 <= n <= |log|
      invariant forall id: EventId :: id in consumed <==> exists k | n <= k < |log| :: Marks(codec, o, log[k], id)
      invariant forall k | n <= k < |log| :: !Malformed(codec, o, log[k]) && !IsCheckpoint(o, log[k])
    {
      n := n - 1;
      var e := log[n];
      if IsMarker(o, e) {
        var marked := ConsumedId(codec, e.body);
        if marked.Err? {
          assert Malformed(codec, o, log[n]);
          assert Refuses(codec, o, log, n);
          return Rejected;
        }
        consumed := consumed + {marked.value};
      } else if IsCheckpoint(o, e) {
        assert Newest(o, log, n);
        if e.id in consumed {
          return Absent;
        }
        var plan := FromInteraction(codec, e.body);
        if plan.Err? {
          assert Refuses(codec, o, log, n);
          return Rejected;
        }
        assert Offers(codec, o, log, n, Held(plan.value, e.id));
        return Available(Held(plan.value, e.id));
      }
    }
    d := Absent;
  }

  ghost predicate Offers(codec: Codec, o: Owner, log: seq<Logged>, i: nat, h: Held) {
    && Newest(o, log, i) && log[i].id == h.id && FromInteraction(codec, log[i].body) == Ok(h.plan)
    && !MarkedAfter(codec, o, log, i, h.id)
    && forall k | i < k < |log| :: !Malformed(codec, o, log[k])
  }
}

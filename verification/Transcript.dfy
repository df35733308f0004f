/** The canonical log, the local tool journals, and how a journal's messages are
    projected into the log exactly once however often that is retried. */
module Transcript {
  import opened Collections
  import opened Ranking
  import opened Messages

  type AgentId = nat
  type ThreadId = nat

  // ----- Records of one message -----

  datatype Part = Thought | Answer | Call(index: nat) | Outcome

  datatype Identity = Identity(record: RecordId, part: Part)

  datatype Exchange = Exchange(operation: CallId, tool: string, arguments: string, result: Option<string>,
                               succeeded: Option<bool>)

  datatype Item = Item(part: Part, text: string, exchange: Option<Exchange>)

  /** One canonical event: a projected part of a message, a resumable
      checkpoint, or anything else. */
  datatype Event =
    | Record(identity: Option<Identity>, agent: AgentId, thread: ThreadId, role: Role, item: Item)
    | Checkpoint(run: RunId, messages: seq<Message>)
    | Other

  function CallItems(calls: seq<ToolCall>): (r: seq<Item>)
    ensures |r| == |calls|
  {
    seq(|calls|, k requires 0 <= k < |calls| =>
      Item(Call(k), calls[k].name + "(" + calls[k].arguments + ")",
           Some(Exchange(calls[k].id, calls[k].name, calls[k].arguments, None, None))))
  }

  /** The result record: the tool's name and arguments only if its call is known. */
  function ResultItem(m: Message, call: Option<ToolCall>): Item {
    Item(Outcome, m.content, Some(Exchange(
      AnsweredCall(m),
      if call.Some? then call.value.name else "unknown",
      if call.Some? then call.value.arguments else "{}",
      Some(m.content), m.toolSucceeded)))
  }

  predicate HasThought(m: Message) { m.reasoning.Some? && !Blank(m.reasoning.value) }

  /** What one message contributes, given the call its result answers. */
  function ItemsOf(m: Message, call: Option<ToolCall>): seq<Item> {
    match m.role
    case System => []
    case User => []
    case Assistant =>
      (if HasThought(m) then [Item(Thought, m.reasoning.value, None)] else [])
      + (if Blank(m.content) then [] else [Item(Answer, m.content, None)])
      + CallItems(m.toolCalls)
    case Tool => [ResultItem(m, call)]
  }

  function EventOf(agent: AgentId, thread: ThreadId, m: Message, item: Item): Event {
    Record(if m.recordId.Some? then Some(Identity(m.recordId.value, item.part)) else None, agent, thread, m.role, item)
  }

  function Wrapped(agent: AgentId, thread: ThreadId, m: Message, items: seq<Item>): (r: seq<Event>)
    ensures |r| == |items|
  {
    seq(|items|, k requires 0 <= k < |items| => EventOf(agent, thread, m, items[k]))
  }

  /** The identifier a result answers: the empty one if it names none. */
  function AnsweredCall(m: Message): CallId { if m.toolCallId.Some? then m.toolCallId.value else NO_CALL }

  function ResultCall(table: Table, m: Message, index: nat): Option<ToolCall> {
    Resolved(table, AnsweredCall(m), index)
  }

  function EventsOf(agent: AgentId, thread: ThreadId, table: Table, m: Message, index: nat): seq<Event> {
    Wrapped(agent, thread, m, ItemsOf(m, ResultCall(table, m, index)))
  }

  /** An event tells one part of a message: whose it is, its identity if the
      message has one, and for each part what that part says. */
  predicate Tells(e: Event, agent: AgentId, thread: ThreadId, m: Message) {
    && e.Record? && e.agent == agent && e.thread == thread && e.role == m.role
    && (m.recordId.Some? <==> e.identity.Some?)
    && (m.recordId.Some? ==> e.identity.value.record == m.recordId.value && e.identity.value.part == e.item.part)
    && match e.item.part
       case Thought =>
         m.role == Assistant && m.reasoning == Some(e.item.text) && !Blank(e.item.text) && e.item.exchange == None
       case Answer =>
         m.role == Assistant && m.content == e.item.text && !Blank(e.item.text) && e.item.exchange == None
       case Call(k) =>
         && m.role == Assistant && k < |m.toolCalls| && e.item.exchange.Some?
         && var call, exchange := m.toolCalls[k], e.item.exchange.value;
         && exchange.operation == call.id && exchange.tool == call.name && exchange.arguments == call.arguments
         && exchange.result == None && exchange.succeeded == None
         && e.item.text == call.name + "(" + call.arguments + ")"
       case Outcome =>
         && m.role == Tool && e.item.text == m.content && e.item.exchange.Some?
         && var exchange := e.item.exchange.value;
         && exchange.result == Some(m.content) && exchange.succeeded == m.toolSucceeded
         && (m.toolCallId.Some? ==> exchange.operation == m.toolCallId.value)
         && (m.toolCallId.None? ==> exchange.operation == NO_CALL)
  }

  /** A message is told part by part: its thought and its answer unless blank,
      then its calls in order, or its one result. */
  lemma PartsAreTold(agent: AgentId, thread: ThreadId, table: Table, m: Message, index: nat)
    ensures var events := EventsOf(agent, thread, table, m, index);
      var thoughts := if m.reasoning.Some? && !Blank(m.reasoning.value) then 1 else 0;
      var answers := if Blank(m.content) then 0 else 1;
      && (forall e | e in events :: Tells(e, agent, thread, m))
      && (m.role == System || m.role == User ==> events == [])
      && (m.role == Tool ==> |events| == 1 && events[0].item.part == Outcome)
      && (m.role == Assistant ==>
            && |events| == thoughts + answers + |m.toolCalls|
            && (thoughts == 1 ==> events[0].item.part == Thought)
            && (answers == 1 ==> events[thoughts].item.part == Answer)
            && forall k | 0 <= k < |m.toolCalls| :: events[thoughts + answers + k].item.part == Call(k))
  {
    hide Blank, Resolved;
    var events, call := EventsOf(agent, thread, table, m, index), ResultCall(table, m, index);
    forall e | e in events
      ensures Tells(e, agent, thread, m)
    {
      var i :| 0 <= i < |events| && events[i] == e;
      ItemTold(agent, thread, m, call, i);
    }
  }

  lemma ItemTold(agent: AgentId, thread: ThreadId, m: Message, call: Option<ToolCall>, i: nat)
    requires i < |ItemsOf(m, call)|
    ensures Tells(EventOf(agent, thread, m, ItemsOf(m, call)[i]), agent, thread, m)
  {
    hide Blank;
    var n := |ItemsOf(m, call)| - |m.toolCalls|;
    if m.role == Assistant && i >= n {
      assert ItemsOf(m, call)[i] == CallItems(m.toolCalls)[i - n];
    }
  }

  /** All the events a batch calls for, in order. */
  function BatchEvents(agent: AgentId, thread: ThreadId, table: Table, messages: seq<Message>, n: nat): seq<Event>
    requires n <= |messages|
  {
    if n == 0 then [] else
      BatchEvents(agent, thread, table, messages, n - 1) + EventsOf(agent, thread, table, messages[n - 1], n - 1)
  }

  // ----- Identities -----

  function IdsOf(e: Event): set<Identity> {
    if e.Record? && e.identity.Some? then {e.identity.value} else {}
  }

  /** The identities a log already holds. */
  function Recorded(log: seq<Event>): set<Identity> {
    set i, id | 0 <= i < |log| && id in IdsOf(log[i]) :: id
  }

  lemma RecordedConcat(a: seq<Event>, b: seq<Event>)
    ensures Recorded(a + b) == Recorded(a) + Recorded(b)
  {
    forall id | id in Recorded(b)
      ensures id in Recorded(a + b)
    {
      var i :| 0 <= i < |b| && id in IdsOf(b[i]);
      assert (a + b)[|a| + i] == b[i];
    }
    forall id | id in Recorded(a)
      ensures id in Recorded(a + b)
    {
      var i :| 0 <= i < |a| && id in IdsOf(a[i]);
      assert (a + b)[i] == a[i];
    }
  }

  lemma RecordedOne(e: Event)
    ensures Recorded([e]) == IdsOf(e)
  {
    assert [e][0] == e;
  }

  /** No identity occurs twice in a log. */
  ghost predicate AtMostOnce(log: seq<Event>) {
    forall i, j | 0 <= i < j < |log| :: IdsOf(log[i]) !! IdsOf(log[j])
  }

  lemma AppendOnce(log: seq<Event>, e: Event)
    requires AtMostOnce(log) && IdsOf(e) !! Recorded(log)
    ensures AtMostOnce(log + [e])
  {
  }

  /** What is left of `events` once those already recorded are skipped. */
  function Unrecorded(events: seq<Event>, recorded: set<Identity>): seq<Event>
    decreases |events|
  {
    if events == [] then []
    else if IdsOf(events[0]) * recorded != {} then Unrecorded(events[1..], recorded)
    else [events[0]] + Unrecorded(events[1..], recorded + IdsOf(events[0]))
  }

  lemma {:induction false} UnrecordedConcat(a: seq<Event>, b: seq<Event>, recorded: set<Identity>)
    ensures Unrecorded(a + b, recorded) == Unrecorded(a, recorded) + Unrecorded(b, recorded + Recorded(a))
    decreases |a|
  {
    if a == [] {
      assert a + b == b && recorded + Recorded(a) == recorded;
    } else {
      assert (a + b)[1..] == a[1..] + b;
      assert a == [a[0]] + a[1..];
      RecordedConcat([a[0]], a[1..]);
      RecordedOne(a[0]);
      if IdsOf(a[0]) * recorded != {} {
        UnrecordedConcat(a[1..], b, recorded);
        assert IdsOf(a[0]) <= recorded;
        assert recorded + Recorded(a) == recorded + Recorded(a[1..]);
      } else {
        UnrecordedConcat(a[1..], b, recorded + IdsOf(a[0]));
        assert recorded + Recorded(a) == recorded + IdsOf(a[0]) + Recorded(a[1..]);
      }
    }
  }

  /** Projecting a batch leaves the log with everything it had and everything
      the batch calls for, and introduces no repetition. */
  lemma {:induction false} ProjectionRecords(log: seq<Event>, events: seq<Event>)
    ensures Recorded(log + Unrecorded(events, Recorded(log))) == Recorded(log) + Recorded(events)
    ensures AtMostOnce(log) ==> AtMostOnce(log + Unrecorded(events, Recorded(log)))
    decreases |events|
  {
    hide AtMostOnce;
    if events == [] {
      assert log + [] == log;
    } else {
      var e, rest := events[0], events[1..];
      assert events == [e] + rest;
      RecordedConcat([e], rest);
      RecordedOne(e);
      if IdsOf(e) * Recorded(log) != {} {
        ProjectionRecords(log, rest);
        assert IdsOf(e) <= Recorded(log);
      } else {
        RecordedConcat(log, [e]);
        ProjectionRecords(log + [e], rest);
        if AtMostOnce(log) {
          AppendOnce(log, e);
        }
        assert log + Unrecorded(events, Recorded(log)) == log + [e] + Unrecorded(rest, Recorded(log) + IdsOf(e));
      }
    }
  }

  /** Projecting the same batch again adds nothing but its anonymous parts. */
  lemma {:induction false} ProjectingAgain(events: seq<Event>, recorded: set<Identity>)
    requires Recorded(events) <= recorded
    ensures forall e | e in Unrecorded(events, recorded) :: IdsOf(e) == {}
    decreases |events|
  {
    if events != [] {
      assert events == [events[0]] + events[1..];
      RecordedConcat([events[0]], events[1..]);
      RecordedOne(events[0]);
      ProjectingAgain(events[1..], recorded);
      assert IdsOf(events[0]) * recorded == {} ==> IdsOf(events[0]) == {};
      assert IdsOf(events[0]) == {} ==> recorded + IdsOf(events[0]) == recorded;
    }
  }

  // ----- Journals -----

  datatype Progress = Progress(runId: RunId, start: nat, messages: seq<Message>, pendingTask: string, finished: bool,
                               stopped: bool)

  datatype Envelope = Envelope(schema: nat, agent: AgentId, thread: ThreadId, progress: Progress,
                               groundingPending: bool)

  /** What `decode` accepts. */
  predicate Decodable(e: Envelope) {
    e.schema == 1 && e.progress.runId != "" && e.progress.start <= |e.progress.messages|
  }

  function CallIds(calls: seq<ToolCall>): set<CallId> { set k | 0 <= k < |calls| :: calls[k].id }

  function Answers(m: Message): set<CallId> { if m.toolCallId.Some? then {m.toolCallId.value} else {} }

  /** Calls without a later result: the `pending` table's keys. */
  function PendingOf(messages: seq<Message>): set<CallId> {
    if messages == [] then {}
    else
      var last := messages[|messages| - 1];
      PendingOf(messages[..|messages| - 1]) + CallIds(last.toolCalls) - Answers(last)
  }

  ghost predicate AnsweredFrom(messages: seq<Message>, id: CallId, j: nat) {
    exists k :: j <= k < |messages| && messages[k].toolCallId == Some(id)
  }

  ghost predicate Calls(m: Message, id: CallId) { exists call :: call in m.toolCalls && call.id == id }

  lemma CallsExactly(m: Message, id: CallId)
    ensures id in CallIds(m.toolCalls) <==> Calls(m, id)
  {
    if k :| 0 <= k < |m.toolCalls| && m.toolCalls[k].id == id {
      assert m.toolCalls[k] in m.toolCalls;
    }
  }

  ghost predicate Open(messages: seq<Message>, id: CallId, j: nat) {
    j < |messages| && Calls(messages[j], id) && !AnsweredFrom(messages, id, j)
  }

  /** An identifier is pending exactly when some call of it has no result after it. */
  lemma {:induction false} PendingExactly(messages: seq<Message>, id: CallId)
    ensures id in PendingOf(messages) <==> exists j :: Open(messages, id, j)
    decreases |messages|
  {
    if messages != [] {
      var n := |messages| - 1;
      var front, last := messages[..n], messages[n];
      hide Calls, CallIds;
      PendingExactly(front, id);
      forall j: nat | j < n
        ensures Open(messages, id, j) <==> Open(front, id, j) && last.toolCallId != Some(id)
      {
        assert front[j] == messages[j];
        if AnsweredFrom(front, id, j) {
          var k :| j <= k < |front| && front[k].toolCallId == Some(id);
          assert messages[k].toolCallId == Some(id);
        }
        if AnsweredFrom(messages, id, j) && last.toolCallId != Some(id) {
          var k :| j <= k < |messages| && messages[k].toolCallId == Some(id);
          assert front[k].toolCallId == Some(id);
        }
      }
      CallsExactly(last, id);
      assert Open(messages, id, n) <==> id in CallIds(last.toolCalls) && last.toolCallId != Some(id);
      if id in PendingOf(messages) && id in PendingOf(front) {
        var j :| Open(front, id, j);
        assert Open(messages, id, j);
      }
      if j :| Open(messages, id, j) && j != n {
        assert Open(front, id, j);
      }
    }
  }

  // ----- What recovery makes of a journal -----

  /** Wording that does not matter to the protocol. */
  datatype Wording = Wording(notice: NoticeText, unknown: string, summary: (Progress, nat) -> string)

  function CaveatedFrom(notice: NoticeText, messages: seq<Message>, start: nat): (r: seq<Message>)
    ensures |r| == |messages|
  {
    hide Caveated;
    seq(|messages|, i requires 0 <= i < |messages| => if i >= start then Caveated(notice, messages[i]) else messages[i])
  }

  function UnknownResult(w: Wording, run: RunId, id: CallId, at: nat): Message {
    Message(Some(RecordId(run, Unknown(at))), Tool, w.unknown, Some(id), Some(false), [], None)
  }

  function UnknownResults(w: Wording, run: RunId, ids: seq<CallId>, base: nat): (r: seq<Message>)
    ensures |r| == |ids|
  {
    seq(|ids|, i requires 0 <= i < |ids| => UnknownResult(w, run, ids[i], base + i))
  }

  function SummaryText(w: Wording, p: Progress, pending: nat): (r: string)
    ensures r != [] && !IsSpace(r[0])
  {
    "Recovered interrupted work: " + w.summary(p, pending)
  }

  function Summary(w: Wording, p: Progress, pending: nat, caveat: bool): Message {
    var m := Message(None, Assistant, SummaryText(w, p, pending), None, None, [], None);
    (if caveat then Caveated(w.notice, m) else m).(recordId := Some(RecordId(p.runId, Recovery)))
  }

  function Noted(w: Wording, e: Envelope): (r: seq<Message>)
    ensures |r| == |e.progress.messages|
  {
    hide CaveatedFrom;
    if e.groundingPending then CaveatedFrom(w.notice, e.progress.messages, e.progress.start) else e.progress.messages
  }

  function OpenCalls(w: Wording, e: Envelope): seq<CallId> { Sorted(PendingOf(Noted(w, e))) }

  function Unknowns(w: Wording, e: Envelope): (r: seq<Message>)
    ensures |r| == |OpenCalls(w, e)|
  {
    UnknownResults(w, e.progress.runId, OpenCalls(w, e), |e.progress.messages|)
  }

  /** The messages recovery projects and checkpoints. It never runs a tool: an
      interrupted run gains an unknown result per open call and a summary. */
  function Completed(w: Wording, e: Envelope): (r: seq<Message>)
    ensures |r| >= |e.progress.messages|
  {
    if e.progress.finished then Noted(w, e)
    else
      var told := Noted(w, e) + Unknowns(w, e);
      told + [Summary(w, e.progress.(messages := told), |OpenCalls(w, e)|, e.groundingPending)]
  }

  /** `after` differs from `before` at most in texts, and blanks nothing out. */
  ghost predicate TextOnly(before: seq<Message>, after: seq<Message>) {
    && |after| == |before|
    && (forall i | 0 <= i < |before| :: after[i] == before[i].(content := after[i].content))
    && (forall i | 0 <= i < |before| :: Blank(after[i].content) <==> Blank(before[i].content))
  }

  lemma CaveatChangesText(w: Wording, e: Envelope)
    ensures TextOnly(e.progress.messages, Noted(w, e))
  {
    hide Caveated, Blank;
    forall i | 0 <= i < |e.progress.messages|
      ensures Noted(w, e)[i] == e.progress.messages[i].(content := Noted(w, e)[i].content)
      ensures Blank(Noted(w, e)[i].content) <==> Blank(e.progress.messages[i].content)
    {
      CaveatKeeps(w.notice, e.progress.messages[i]);
    }
  }

  lemma {:induction false} SamePending(a: seq<Message>, b: seq<Message>)
    requires |a| == |b| && forall i | 0 <= i < |a| ::
      a[i].toolCalls == b[i].toolCalls && a[i].toolCallId == b[i].toolCallId
    ensures PendingOf(a) == PendingOf(b)
    decreases |a|
  {
    if a != [] {
      SamePending(a[..|a| - 1], b[..|b| - 1]);
    }
  }

  lemma OpenCallsArePending(w: Wording, e: Envelope)
    ensures ToSet(OpenCalls(w, e)) == PendingOf(e.progress.messages) && Distinct(OpenCalls(w, e))
    ensures |OpenCalls(w, e)| == |PendingOf(e.progress.messages)|
  {
    hide Noted, Sorted, PendingOf;
    CaveatChangesText(w, e);
    SamePending(Noted(w, e), e.progress.messages);
    SortedKeys(PendingOf(Noted(w, e)));
  }

  lemma SummaryIsSaid(w: Wording, p: Progress, pending: nat, caveat: bool)
    ensures Summary(w, p, pending, caveat).toolCalls == [] && Summary(w, p, pending, caveat).toolCallId == None
    ensures Summary(w, p, pending, caveat).recordId == Some(RecordId(p.runId, Recovery))
    ensures Summary(w, p, pending, caveat).role == Assistant && !Blank(Summary(w, p, pending, caveat).content)
  {
    hide SummaryText, Caveated;
    var m := Message(None, Assistant, SummaryText(w, p, pending), None, None, [], None);
    assert !IsSpace(m.content[0]);
    CaveatKeeps(w.notice, m);
  }

  lemma CompletedInParts(w: Wording, e: Envelope) returns (last: Message)
    requires !e.progress.finished
    ensures Completed(w, e) == Noted(w, e) + Unknowns(w, e) + [last] && last.toolCalls == []
    ensures forall i | 0 <= i < |OpenCalls(w, e)| ::
      Unknowns(w, e)[i].toolCallId == Some(OpenCalls(w, e)[i]) && Unknowns(w, e)[i].toolCalls == []
  {
    hide Noted, OpenCalls, Summary;
    var told := Noted(w, e) + Unknowns(w, e);
    last := Summary(w, e.progress.(messages := told), |OpenCalls(w, e)|, e.groundingPending);
    SummaryIsSaid(w, e.progress.(messages := told), |OpenCalls(w, e)|, e.groundingPending);
  }

  /** A call left open among the messages is one of the open calls. */
  lemma OpenIsListed(w: Wording, e: Envelope, j: nat, id: CallId)
    requires Open(Noted(w, e), id, j)
    ensures id in OpenCalls(w, e)
  {
    hide Noted, OpenCalls, PendingOf, Open;
    OpenCallsArePending(w, e);
    CaveatChangesText(w, e);
    SamePending(Noted(w, e), e.progress.messages);
    PendingExactly(Noted(w, e), id);
    assert id in ToSet(OpenCalls(w, e));
  }

  /** A call with no result among the messages has its unknown result among those added. */
  lemma AddedResult(w: Wording, e: Envelope, j: nat, id: CallId, last: Message)
    requires !e.progress.finished && Completed(w, e) == Noted(w, e) + Unknowns(w, e) + [last]
    requires forall i | 0 <= i < |OpenCalls(w, e)| :: Unknowns(w, e)[i].toolCallId == Some(OpenCalls(w, e)[i])
    requires Open(Noted(w, e), id, j)
    ensures AnsweredFrom(Completed(w, e), id, j)
  {
    OpenIsListed(w, e, j, id);
    var n := |Noted(w, e)|;
    hide Noted, OpenCalls, Unknowns, Completed;
    var i :| 0 <= i < |OpenCalls(w, e)| && OpenCalls(w, e)[i] == id;
    assert Completed(w, e)[n + i] == Unknowns(w, e)[i];
  }

  /** Every call of an interrupted run is followed by a result with its identifier. */
  lemma EveryCallIsAnswered(w: Wording, e: Envelope, j: nat, id: CallId)
    requires !e.progress.finished && j < |Completed(w, e)| && Calls(Completed(w, e)[j], id)
    ensures AnsweredFrom(Completed(w, e), id, j)
  {
    hide Noted, OpenCalls, PendingOf, Unknowns, Completed;
    var noted, all := Noted(w, e), Completed(w, e);
    var last := CompletedInParts(w, e);
    assert j < |noted|;
    assert all[j] == noted[j];
    if AnsweredFrom(noted, id, j) {
      var k :| j <= k < |noted| && noted[k].toolCallId == Some(id);
      assert all[k].toolCallId == Some(id);
    } else {
      AddedResult(w, e, j, id, last);
    }
  }

  /** Recovery keeps every recorded message, adding at most the caveat to the output
      a pending grounding left unverified. For each call left open, in order, it adds
      one tool result that says the outcome is unknown and the action failed, and
      then a summary that says who stopped. */
  lemma OpenCallsGetUnknownResults(w: Wording, e: Envelope) returns (open: seq<CallId>)
    requires !e.progress.finished
    ensures Ascending(open) && ToSet(open) == PendingOf(e.progress.messages)
    ensures |Completed(w, e)| == |e.progress.messages| + |open| + 1
    ensures forall i | 0 <= i < |e.progress.messages| ::
      KeptMessage(w, e.progress.messages[i], Completed(w, e)[i], e.groundingPending && i >= e.progress.start)
    ensures forall k | 0 <= k < |open| ::
      IsUnknownResult(w, Completed(w, e)[|e.progress.messages| + k], e.progress.runId, open[k],
                      |e.progress.messages| + k)
    ensures IsSummary(w, e, Completed(w, e)[..|e.progress.messages| + |open|], |open|,
                      Completed(w, e)[|e.progress.messages| + |open|])
  {
    hide Noted, Unknowns, Completed, PendingOf, Summary, IsSummary, KeptMessage, IsUnknownResult;
    OpenCallsArePending(w, e);
    OpenCallsAscend(w, e);
    CompletedSplit(w, e);
    UnknownsAreUnknown(w, e);
    open := OpenCalls(w, e);
    hide OpenCalls;
    var n, told := |e.progress.messages|, Noted(w, e) + Unknowns(w, e);
    assert Completed(w, e)[..n + |open|] == told;
    SummaryIsSummary(w, e, told, |open|);
    forall i | 0 <= i < n
      ensures KeptMessage(w, e.progress.messages[i], Completed(w, e)[i], e.groundingPending && i >= e.progress.start)
    {
      NotedIsKept(w, e, i);
      assert Completed(w, e)[i] == Noted(w, e)[i];
    }
    assert forall k | 0 <= k < |open| :: Completed(w, e)[n + k] == Unknowns(w, e)[k];
  }

  lemma CompletedSplit(w: Wording, e: Envelope)
    requires !e.progress.finished
    ensures |Noted(w, e)| == |e.progress.messages| && |Unknowns(w, e)| == |OpenCalls(w, e)|
    ensures var told := Noted(w, e) + Unknowns(w, e);
      Completed(w, e) ==
        told + [Summary(w, e.progress.(messages := told), |OpenCalls(w, e)|, e.groundingPending)]
  {
    hide Noted, Unknowns, OpenCalls, Summary;
  }

  lemma UnknownsAreUnknown(w: Wording, e: Envelope)
    ensures |Unknowns(w, e)| == |OpenCalls(w, e)|
    ensures forall k | 0 <= k < |OpenCalls(w, e)| ::
      IsUnknownResult(w, Unknowns(w, e)[k], e.progress.runId, OpenCalls(w, e)[k], |e.progress.messages| + k)
  {
    hide OpenCalls;
  }

  lemma OpenCallsAscend(w: Wording, e: Envelope)
    ensures Ascending(OpenCalls(w, e))
  {
    hide Noted, PendingOf, Sorted;
    SortedKeys(PendingOf(Noted(w, e)));
  }

  /** A message recovery kept: nothing changes unless it is unverified output,
      which then ends with the caveat. */
  predicate KeptMessage(w: Wording, before: Message, after: Message, unverified: bool) {
    && after == before.(content := after.content)
    && (!unverified || before.role != Assistant || Blank(before.content) ==> after.content == before.content)
    && (unverified && before.role == Assistant && !Blank(before.content) ==>
          && EndsWith(TrimEnd(after.content), w.notice)
          && (after.content == before.content || after.content == before.content + "\n\n" + w.notice))
  }

  /** The result recovery adds for an open call: nobody knows what it did, so it
      did not succeed. */
  predicate IsUnknownResult(w: Wording, m: Message, run: RunId, id: CallId, at: nat) {
    && m.role == Tool && m.toolCallId == Some(id) && m.toolSucceeded == Some(false)
    && m.content == w.unknown && m.toolCalls == [] && m.reasoning == None
    && m.recordId.Some? && m.recordId.value.run == run && m.recordId.value.slot == Unknown(at)
  }

  /** The closing message: assistant output of the run itself, about everything
      told before it and the number of open calls, with the caveat if grounding is pending. */
  predicate IsSummary(w: Wording, e: Envelope, told: seq<Message>, pending: nat, m: Message) {
    var text := SummaryText(w, e.progress.(messages := told), pending);
    && m.role == Assistant && m.toolCallId == None && m.toolSucceeded == None && m.toolCalls == []
      && m.reasoning == None
    && m.recordId.Some? && m.recordId.value.run == e.progress.runId && m.recordId.value.slot == Recovery
    && (!e.groundingPending ==> m.content == text)
    && (e.groundingPending ==> EndsWith(TrimEnd(m.content), w.notice) && text <= m.content)
  }

  lemma SummaryIsSummary(w: Wording, e: Envelope, told: seq<Message>, pending: nat)
    ensures IsSummary(w, e, told, pending, Summary(w, e.progress.(messages := told), pending, e.groundingPending))
  {
    hide SummaryText, TrimEnd, EndsWith, Caveated, Blank;
    var m := Message(None, Assistant, SummaryText(w, e.progress.(messages := told), pending), None, None, [], None);
    SaidIsNotBlank(m.content);
    CaveatOnce(w.notice, m);
    CaveatKeeps(w.notice, m);
    CaveatAdds(w.notice, m);
  }

  lemma SaidIsNotBlank(text: string)
    requires text != [] && !IsSpace(text[0])
    ensures !Blank(text)
  {
  }

  lemma NotedIsKept(w: Wording, e: Envelope, i: nat)
    requires i < |e.progress.messages|
    ensures KeptMessage(w, e.progress.messages[i], Noted(w, e)[i], e.groundingPending && i >= e.progress.start)
  {
    hide TrimEnd, EndsWith, Caveated, Blank;
    CaveatOnce(w.notice, e.progress.messages[i]);
    CaveatKeeps(w.notice, e.progress.messages[i]);
    CaveatAdds(w.notice, e.progress.messages[i]);
  }

  /** A persisted result takes a tool's name and arguments exactly when its
      identifier (the empty one if it has none) was called once in the batch, in
      an earlier message. */
  lemma ResultNamesItsCall(agent: AgentId, thread: ThreadId, table: Table, messages: seq<Message>, i: nat)
    returns (call: Option<ToolCall>)
    requires TableOk(messages, Place(|messages|, 0), table)
    requires i < |messages| && messages[i].role == Tool
    ensures var events := EventsOf(agent, thread, table, messages[i], i);
      && |events| == 1 && Tells(events[0], agent, thread, messages[i])
      && events[0].item.exchange.value.tool == (if call.Some? then call.value.name else "unknown")
      && events[0].item.exchange.value.arguments == (if call.Some? then call.value.arguments else "{}")
    ensures forall c :: call == Some(c) <==>
      exists p: Place :: OnlyCall(messages, Place(|messages|, 0), AnsweredCall(messages[i]), p, (p.message, c))
        && p.message < i
  {
    hide OnlyCall, TableOk;
    var id := AnsweredCall(messages[i]);
    call := Resolved(table, id, i);
    PartsAreTold(agent, thread, table, messages[i], i);
    forall c
      ensures call == Some(c) <==> exists p: Place ::
        OnlyCall(messages, Place(|messages|, 0), id, p, (p.message, c)) && p.message < i
    {
      ResolvedExactly(messages, table, id, i, c);
    }
  }

  // ----- What a journal requires of the log -----

  /** The identities one message must have in the log. */
  function RequiredOf(m: Message): set<Identity> {
    if m.recordId.None? then {}
    else if m.role == Assistant then
      (if HasThought(m) then {Identity(m.recordId.value, Thought)} else {})
      + (if Blank(m.content) then {} else {Identity(m.recordId.value, Answer)})
      + (set k | 0 <= k < |m.toolCalls| :: Identity(m.recordId.value, Call(k)))
    else if m.role == Tool then {Identity(m.recordId.value, Outcome)}
    else {}
  }

  function Required(messages: seq<Message>): set<Identity> {
    set i, id | 0 <= i < |messages| && id in RequiredOf(messages[i]) :: id
  }

  lemma MessageRecords(agent: AgentId, thread: ThreadId, table: Table, m: Message, index: nat)
    ensures Recorded(EventsOf(agent, thread, table, m, index)) == RequiredOf(m)
  {
    hide Resolved, Blank, ItemsOf;
    var call := ResultCall(table, m, index);
    var items := ItemsOf(m, call);
    var events := EventsOf(agent, thread, table, m, index);
    if m.recordId.Some? {
      var record := m.recordId.value;
      assert forall k | 0 <= k < |events| :: IdsOf(events[k]) == {Identity(record, items[k].part)};
      PartsOf(m, call);
      forall id | id in RequiredOf(m)
        ensures id in Recorded(events)
      {
        var k :| 0 <= k < |items| && items[k].part == id.part;
        assert id in IdsOf(events[k]);
      }
      forall id | id in Recorded(events)
        ensures id in RequiredOf(m)
      {
        var k :| 0 <= k < |events| && id in IdsOf(events[k]);
        assert id == Identity(record, items[k].part);
      }
    }
  }

  lemma PartsOf(m: Message, call: Option<ToolCall>)
    requires m.recordId.Some?
    ensures forall k | 0 <= k < |ItemsOf(m, call)| ::
      Identity(m.recordId.value, ItemsOf(m, call)[k].part) in RequiredOf(m)
    ensures forall id | id in RequiredOf(m) ::
      id.record == m.recordId.value && exists k :: 0 <= k < |ItemsOf(m, call)| && ItemsOf(m, call)[k].part == id.part
  {
    hide Blank, HasThought;
    var items := ItemsOf(m, call);
    if m.role == Assistant {
      var n := |items| - |m.toolCalls|;
      assert items[n..] == CallItems(m.toolCalls);
      forall k | 0 <= k < |m.toolCalls|
        ensures items[n + k].part == Call(k)
      {
        assert items[n + k] == items[n..][k];
      }
      forall k | 0 <= k < |items|
        ensures Identity(m.recordId.value, items[k].part) in RequiredOf(m)
      {
        if k >= n {
          assert items[n + (k - n)].part == Call(k - n);
        }
      }
      forall id | id in RequiredOf(m)
        ensures exists k :: 0 <= k < |items| && items[k].part == id.part
      {
        if id.part == Thought {
          assert items[0].part == Thought;
        } else if id.part == Answer {
          assert items[n - 1].part == Answer;
        } else {
          assert items[n + id.part.index].part == id.part;
        }
      }
    } else if m.role == Tool {
      assert items[0].part == Outcome;
    }
  }

  lemma {:induction false} BatchRecords(agent: AgentId, thread: ThreadId, table: Table,
                                        messages: seq<Message>, n: nat)
    requires n <= |messages|
    ensures Recorded(BatchEvents(agent, thread, table, messages, n)) == Required(messages[..n])
  {
    hide EventsOf, RequiredOf;
    if n > 0 {
      BatchRecords(agent, thread, table, messages, n - 1);
      MessageRecords(agent, thread, table, messages[n - 1], n - 1);
      RecordedConcat(BatchEvents(agent, thread, table, messages, n - 1),
                     EventsOf(agent, thread, table, messages[n - 1], n - 1));
      RequiredSnoc(messages[..n - 1], messages[n - 1]);
      assert messages[..n] == messages[..n - 1] + [messages[n - 1]];
    }
  }

  lemma RequiredSnoc(messages: seq<Message>, m: Message)
    ensures Required(messages + [m]) == Required(messages) + RequiredOf(m)
  {
    hide RequiredOf;
    var all := messages + [m];
    assert all[|messages|] == m;
    forall id | id in Required(messages)
      ensures id in Required(all)
    {
      var i :| 0 <= i < |messages| && id in RequiredOf(messages[i]);
      assert all[i] == messages[i];
    }
  }

  /** What recovering a journal must leave in the log. */
  function Owed(w: Wording, e: Envelope): set<Identity>
    requires Decodable(e)
  {
    Required(Completed(w, e)[e.progress.start..])
  }

  /** The caveat requires no more and no less of a finished run. */
  lemma FinishedOwes(w: Wording, e: Envelope)
    requires Decodable(e) && e.progress.finished
    ensures Owed(w, e) == Required(e.progress.messages[e.progress.start..])
  {
    hide Noted, Blank;
    CaveatChangesText(w, e);
    var a, b := e.progress.messages[e.progress.start..], Noted(w, e)[e.progress.start..];
    forall i | 0 <= i < |a|
      ensures RequiredOf(a[i]) == RequiredOf(b[i])
    {
      assert b[i] == a[i].(content := b[i].content);
      assert Blank(b[i].content) <==> Blank(a[i].content);
    }
  }

  // ----- Finalising the grounding of local copies -----

  /** The last message carrying each record identifier. */
  function ByRecord(messages: seq<Message>): (r: map<RecordId, Message>)
    ensures forall id | id in r :: r[id] in messages && r[id].recordId == Some(id)
    ensures forall i | 0 <= i < |messages| && messages[i].recordId.Some? :: messages[i].recordId.value in r
  {
    if messages == [] then map[]
    else
      var last := messages[|messages| - 1];
      var before := ByRecord(messages[..|messages| - 1]);
      assert forall i | 0 <= i < |messages| - 1 :: messages[i] == messages[..|messages| - 1][i];
      if last.recordId.Some? then before[last.recordId.value := last] else before
  }

  predicate Holds(current: map<RecordId, Message>, m: Message) { m.recordId.Some? && m.recordId.value in current }

  function Replaced(current: map<RecordId, Message>, m: Message): Message {
    if Holds(current, m) then current[m.recordId.value] else m
  }

  function AllReplaced(current: map<RecordId, Message>, messages: seq<Message>): (r: seq<Message>)
    ensures |r| == |messages|
  {
    seq(|messages|, i requires 0 <= i < |messages| => Replaced(current, messages[i]))
  }

  predicate Touches(e: Envelope, agent: AgentId, thread: ThreadId, current: map<RecordId, Message>) {
    e.agent == agent && e.thread == thread && exists i | 0 <= i < |e.progress.messages| ::
      Holds(current, e.progress.messages[i])
  }

  /** A journal after its output has been finalised: still pending if the run is
      unfinished or holds output that was not returned. */
  function Finalized(e: Envelope, current: map<RecordId, Message>): Envelope
    requires Decodable(e)
  {
    var messages := AllReplaced(current, e.progress.messages);
    e.(progress := e.progress.(messages := messages),
       groundingPending := !e.progress.finished
         || exists i | e.progress.start <= i < |messages| :: !Holds(current, messages[i]))
  }

  ghost predicate Carries(returned: seq<Message>, m: Message) {
    m.recordId.Some? && exists i :: 0 <= i < |returned| && returned[i].recordId == m.recordId
  }

  /** The last of the returned messages with this one's record. */
  ghost predicate IsLatest(returned: seq<Message>, m: Message, latest: Message) {
    exists i :: 0 <= i < |returned| && returned[i] == latest && latest.recordId == m.recordId
      && forall j | i < j < |returned| :: returned[j].recordId != m.recordId
  }

  /** A journal takes over what was returned of its own records, and its grounding is
      final exactly when the run is finished and all its output was returned. */
  ghost predicate Finalises(e: Envelope, returned: seq<Message>, after: Envelope) {
    && after == e.(progress := e.progress.(messages := after.progress.messages),
                   groundingPending := after.groundingPending)
    && |after.progress.messages| == |e.progress.messages|
    && (forall k | 0 <= k < |e.progress.messages| ::
          if Carries(returned, e.progress.messages[k])
          then IsLatest(returned, e.progress.messages[k], after.progress.messages[k])
          else after.progress.messages[k] == e.progress.messages[k])
    && (!after.groundingPending <==>
          && e.progress.finished
          && forall k | e.progress.start <= k < |e.progress.messages| :: Carries(returned, e.progress.messages[k]))
  }

  lemma {:induction false} ByRecordExactly(returned: seq<Message>, m: Message)
    requires m.recordId.Some?
    ensures m.recordId.value in ByRecord(returned) <==> Carries(returned, m)
    ensures Carries(returned, m) ==> IsLatest(returned, m, ByRecord(returned)[m.recordId.value])
    decreases |returned|
  {
    if returned != [] {
      var n := |returned| - 1;
      var front := returned[..n];
      ByRecordExactly(front, m);
      assert returned == front + [returned[n]];
      OneMoreReturned(front, returned[n], m, if Carries(front, m) then ByRecord(front)[m.recordId.value] else m);
    }
  }

  lemma OneMoreReturned(front: seq<Message>, last: Message, m: Message, latest: Message)
    requires m.recordId.Some?
    ensures Carries(front + [last], m) <==> Carries(front, m) || last.recordId == m.recordId
    ensures last.recordId == m.recordId ==> IsLatest(front + [last], m, last)
    ensures last.recordId != m.recordId && IsLatest(front, m, latest) ==> IsLatest(front + [last], m, latest)
  {
    var all := front + [last];
    assert all[|front|] == last && forall i | 0 <= i < |front| :: all[i] == front[i];
    if i :| 0 <= i < |front| && front[i].recordId == m.recordId {
      assert all[i].recordId == m.recordId;
    }
    if last.recordId != m.recordId && IsLatest(front, m, latest) {
      var i :| 0 <= i < |front| && front[i] == latest && latest.recordId == m.recordId
        && forall j | i < j < |front| :: front[j].recordId != m.recordId;
      assert all[i] == latest;
    }
  }

  lemma FinalizedExactly(e: Envelope, returned: seq<Message>, agent: AgentId, thread: ThreadId)
    requires Decodable(e)
    ensures Finalises(e, returned, Finalized(e, ByRecord(returned)))
    ensures Touches(e, agent, thread, ByRecord(returned)) <==>
      && e.agent == agent && e.thread == thread
      && exists k :: 0 <= k < |e.progress.messages| && Carries(returned, e.progress.messages[k])
  {
    hide ByRecord, Carries, IsLatest;
    var current := ByRecord(returned);
    forall k | 0 <= k < |e.progress.messages|
      ensures Holds(current, e.progress.messages[k]) <==> Carries(returned, e.progress.messages[k])
      ensures Carries(returned, e.progress.messages[k]) ==>
        IsLatest(returned, e.progress.messages[k], Replaced(current, e.progress.messages[k]))
      ensures Replaced(current, e.progress.messages[k]).recordId == e.progress.messages[k].recordId
    {
      var m := e.progress.messages[k];
      if m.recordId.Some? {
        ByRecordExactly(returned, m);
      } else {
        NotCarried(returned, m);
      }
    }
  }

  lemma NotCarried(returned: seq<Message>, m: Message)
    requires m.recordId.None?
    ensures !Carries(returned, m)
  {
  }

  /** Finalised output is projected as it was returned; output that was not is
      projected with the caveat. */
  lemma FinalizedOutput(w: Wording, e: Envelope, current: map<RecordId, Message>, i: nat)
    requires Decodable(e) && e.progress.start <= i < |e.progress.messages|
    requires forall id | id in current :: current[id].recordId == Some(id)
    ensures Decodable(Finalized(e, current)) && Finalized(e, current).progress.runId == e.progress.runId
    ensures var m := Completed(w, Finalized(e, current))[i];
      if Finalized(e, current).groundingPending
      then m.role == Assistant && !Blank(m.content) ==> EndsWith(TrimEnd(m.content), w.notice)
      else
        && e.progress.finished && Holds(current, e.progress.messages[i])
        && m == current[e.progress.messages[i].recordId.value]
  {
    hide Blank, EndsWith, TrimEnd, Unknowns, OpenCalls, Summary;
    var next := Finalized(e, current);
    assert Completed(w, next)[i] == Noted(w, next)[i];
    if next.groundingPending {
      CaveatKeeps(w.notice, next.progress.messages[i]);
      CaveatOnce(w.notice, next.progress.messages[i]);
    } else {
      assert Holds(current, next.progress.messages[i]);
    }
  }
}

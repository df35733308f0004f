/** Chat messages as the runtime keeps them, the caveat put on unverified output,
    and the resolution of tool calls by identifier. */
module Messages {
  import opened Collections

  type RunId = string

  /** Call identifiers, ordered as their strings are; `NO_CALL` is the empty one. */
  type CallId = nat

  const NO_CALL: CallId := 0

  datatype Role = System | User | Assistant | Tool

  datatype ToolCall = ToolCall(id: CallId, name: string, arguments: string)

  /** For each call identifier the only message and call that use it, or none when several do. */
  type Table = map<CallId, Option<(nat, ToolCall)>>

  /** `{run}:{index}`, `{run}:unknown:{index}` and `{run}:recovery`. */
  datatype Slot = Index(index: nat) | Unknown(at: nat) | Recovery

  datatype RecordId = RecordId(run: RunId, slot: Slot)

  datatype Message = Message(
    recordId: Option<RecordId>, role: Role, content: string, toolCallId: Option<CallId>,
    toolSucceeded: Option<bool>, toolCalls: seq<ToolCall>, reasoning: Option<string>)

  // ----- White space -----

  predicate IsSpace(c: char) {
    || '\t' <= c <= '\r' || c == ' ' || c == '\U{85}' || c == '\U{A0}' || c == '\U{1680}'
    || '\U{2000}' <= c <= '\U{200A}' || c == '\U{2028}' || c == '\U{2029}' || c == '\U{202F}'
    || c == '\U{205F}' || c == '\U{3000}'
  }

  predicate Blank(s: string) { forall i | 0 <= i < |s| :: IsSpace(s[i]) }

  function TrimEnd(s: string): string {
    if s != [] && IsSpace(s[|s| - 1]) then TrimEnd(s[..|s| - 1]) else s
  }

  function TrimStart(s: string): string {
    if s != [] && IsSpace(s[0]) then TrimStart(s[1..]) else s
  }

  function Trim(s: string): string { TrimEnd(TrimStart(s)) }

  predicate EndsWith(s: string, end: string) { |end| <= |s| && s[|s| - |end|..] == end }

  predicate StartsWith(s: string, start: string) { |start| <= |s| && s[..|start|] == start }

  lemma StartsExactly(s: string, start: string)
    ensures StartsWith(s, start) <==> exists rest :: s == start + rest
  {
    if StartsWith(s, start) {
      assert s == start + s[|start|..];
    }
  }

  lemma EndsExactly(s: string, end: string)
    ensures EndsWith(s, end) <==> exists front :: s == front + end
  {
    if EndsWith(s, end) {
      assert s == s[..|s| - |end|] + end;
    }
  }

  // ----- The grounding caveat -----

  /** The notice's wording; only that it does not end in white space matters. */
  type NoticeText = s: string | s != [] && !IsSpace(s[|s| - 1]) witness "[Grounding was not finalized]"

  /** `caveat_unfinalized_message`. */
  function Caveated(notice: NoticeText, m: Message): Message {
    if m.role == Assistant && !Blank(m.content) && !EndsWith(TrimEnd(m.content), notice)
    then m.(content := m.content + "\n\n" + notice)
    else m
  }

  /** Nothing but the text is touched, and blank text stays blank. */
  lemma CaveatKeeps(notice: NoticeText, m: Message)
    ensures Caveated(notice, m) == m.(content := Caveated(notice, m).content)
    ensures Blank(Caveated(notice, m).content) <==> Blank(m.content)
  {
    var text := m.content + "\n\n" + notice;
    assert text[|text| - 1] == notice[|notice| - 1];
  }

  /** The caveat is appended to unverified assistant text that does not end with
      it yet, and nothing else changes. */
  lemma CaveatAdds(notice: NoticeText, m: Message)
    ensures m.role != Assistant || Blank(m.content) || EndsWith(TrimEnd(m.content), notice) ==>
      Caveated(notice, m) == m
    ensures m.role == Assistant && !Blank(m.content) && !EndsWith(TrimEnd(m.content), notice) ==>
      Caveated(notice, m).content == m.content + "\n\n" + notice
  {
  }

  /** Trimming takes off all the space at the end and nothing else. */
  lemma {:induction false} TrimEndExactly(s: string)
    ensures TrimEnd(s) <= s && Blank(s[|TrimEnd(s)|..])
    ensures TrimEnd(s) != [] ==> !IsSpace(TrimEnd(s)[|TrimEnd(s)| - 1])
    decreases |s|
  {
    if s != [] && IsSpace(s[|s| - 1]) {
      TrimEndExactly(s[..|s| - 1]);
    }
  }

  /** The same at the start. */
  lemma {:induction false} TrimStartExactly(s: string)
    ensures |TrimStart(s)| <= |s| && TrimStart(s) == s[|s| - |TrimStart(s)|..] && Blank(s[..|s| - |TrimStart(s)|])
    ensures TrimStart(s) != [] ==> !IsSpace(TrimStart(s)[0])
    decreases |s|
  {
    if s != [] && IsSpace(s[0]) {
      TrimStartExactly(s[1..]);
      var k := |s| - |TrimStart(s)|;
      assert s[1..][k - 1..] == s[k..];
      forall i | 0 <= i < k
        ensures IsSpace(s[i])
      {
        assert i > 0 ==> s[1..][..k - 1][i - 1] == s[i];
      }
    }
  }

  /** Saying it twice says it once, and unverified text always carries it. */
  lemma CaveatOnce(notice: NoticeText, m: Message)
    ensures Caveated(notice, Caveated(notice, m)) == Caveated(notice, m)
    ensures m.content <= Caveated(notice, m).content
    ensures m.role == Assistant && !Blank(m.content) ==> EndsWith(TrimEnd(Caveated(notice, m).content), notice)
  {
    var text := m.content + "\n\n" + notice;
    assert text[|text| - 1] == notice[|notice| - 1];
    assert text[|text| - |notice|..] == notice;
    assert m.content <= text;
  }

  // ----- Calls by identifier -----

  /** Where the `k`th call of the `i`th message stands. */
  datatype Place = Place(message: nat, call: nat)

  ghost predicate Calls(messages: seq<Message>, p: Place, id: CallId) {
    && p.message < |messages| && messages[p.message].role == Assistant
    && p.call < |messages[p.message].toolCalls|
    && messages[p.message].toolCalls[p.call].id == id
  }

  predicate Earlier(p: Place, q: Place) {
    p.message < q.message || (p.message == q.message && p.call < q.call)
  }

  /** What the table holds for one identifier, given the calls before `end`:
      nothing if there is none, the call if there is one, `None` if there are more. */
  ghost predicate EntryOk(messages: seq<Message>, end: Place, id: CallId, table: Table) {
    && (id !in table ==> forall p: Place | Calls(messages, p, id) :: !Earlier(p, end))
    && (id in table && table[id].Some? ==> exists p: Place :: OnlyCall(messages, end, id, p, table[id].value))
    && (id in table && table[id].None? ==> exists p: Place, q: Place :: TwoCalls(messages, end, id, p, q))
  }

  ghost predicate OnlyCall(messages: seq<Message>, end: Place, id: CallId, p: Place, found: (nat, ToolCall)) {
    && Calls(messages, p, id) && Earlier(p, end)
    && found == (p.message, messages[p.message].toolCalls[p.call])
    && forall q: Place | Calls(messages, q, id) && Earlier(q, end) :: q == p
  }

  ghost predicate TwoCalls(messages: seq<Message>, end: Place, id: CallId, p: Place, q: Place) {
    Calls(messages, p, id) && Calls(messages, q, id) && p != q && Earlier(p, end) && Earlier(q, end)
  }

  ghost predicate TableOk(messages: seq<Message>, end: Place, table: Table) {
    forall id {:trigger EntryOk(messages, end, id, table)} :: EntryOk(messages, end, id, table)
  }

  lemma AddCall(messages: seq<Message>, i: nat, k: nat, table: Table, call: ToolCall)
    requires TableOk(messages, Place(i, k), table)
    requires i < |messages| && messages[i].role == Assistant && k < |messages[i].toolCalls|
      && call == messages[i].toolCalls[k]
    ensures TableOk(messages, Place(i, k + 1), table[call.id := if call.id in table then None else Some((i, call))])
  {
    var here, next := Place(i, k), Place(i, k + 1);
    var after := table[call.id := if call.id in table then None else Some((i, call))];
    assert Calls(messages, here, call.id);
    forall id
      ensures EntryOk(messages, next, id, after)
    {
      assert EntryOk(messages, here, id, table);
      OneMore(messages, i, k, id);
      if id in table && table[id].Some? {
        var p :| OnlyCall(messages, here, id, p, table[id].value);
        if id == call.id {
          assert TwoCalls(messages, next, id, p, here);
        } else {
          assert OnlyCall(messages, next, id, p, table[id].value);
        }
      } else if id in table {
        var p, q :| TwoCalls(messages, here, id, p, q);
        assert TwoCalls(messages, next, id, p, q);
      } else if id == call.id {
        assert OnlyCall(messages, next, id, here, (i, call));
      }
    }
  }

  /** The next place is the only one between its predecessor and its successor. */
  lemma OneMore(messages: seq<Message>, i: nat, k: nat, id: CallId)
    ensures forall p: Place | Calls(messages, p, id) && Earlier(p, Place(i, k + 1)) ::
      Earlier(p, Place(i, k)) || p == Place(i, k)
  {
  }

  lemma SkipMessage(messages: seq<Message>, i: nat, k: nat, table: Table)
    requires TableOk(messages, Place(i, k), table) && i < |messages|
    requires messages[i].role == Assistant ==> k == |messages[i].toolCalls|
    ensures TableOk(messages, Place(i + 1, 0), table)
  {
    var here, next := Place(i, k), Place(i + 1, 0);
    forall id
      ensures EntryOk(messages, next, id, table)
    {
      assert EntryOk(messages, here, id, table);
      assert forall p: Place | Calls(messages, p, id) :: Earlier(p, next) ==> Earlier(p, here);
      if id in table && table[id].Some? {
        var p :| OnlyCall(messages, here, id, p, table[id].value);
        assert OnlyCall(messages, next, id, p, table[id].value);
      } else if id in table {
        var p, q :| TwoCalls(messages, here, id, p, q);
        assert TwoCalls(messages, next, id, p, q);
      }
    }
  }

  /** Identity over a whole batch: a repeated identifier is ambiguous. */
  method CallTable(messages: seq<Message>) returns (table: Table)
    ensures TableOk(messages, Place(|messages|, 0), table)
  {
    hide EntryOk;
    table := map[];
    EmptyTable(messages);
    for i := 0 to |messages|
      invariant TableOk(messages, Place(i, 0), table)
    {
      if messages[i].role == Assistant {
        var calls := messages[i].toolCalls;
        for k := 0 to |calls|
          invariant TableOk(messages, Place(i, k), table)
        {
          AddCall(messages, i, k, table, calls[k]);
          var entry: Option<(nat, ToolCall)> := if calls[k].id in table then None else Some((i, calls[k]));
          table := table[calls[k].id := entry];
        }
        SkipMessage(messages, i, |calls|, table);
      } else {
        SkipMessage(messages, i, 0, table);
      }
    }
  }

  lemma EmptyTable(messages: seq<Message>)
    ensures TableOk(messages, Place(0, 0), map[])
  {
    forall id: CallId
      ensures EntryOk(messages, Place(0, 0), id, map[])
    {
    }
  }

  /** The call a result at `index` answers, if the table can say. */
  function Resolved(table: Table, id: CallId, index: nat): Option<ToolCall> {
    if id in table && table[id].Some? && table[id].value.0 < index then Some(table[id].value.1) else None
  }

  lemma OneIsNotTwo(messages: seq<Message>, end: Place, id: CallId, p: Place, found: (nat, ToolCall))
    requires OnlyCall(messages, end, id, p, found)
    ensures forall a, b :: !TwoCalls(messages, end, id, a, b)
  {
  }

  /** A result is attributed to a call exactly when that identifier was called
      once in the whole batch, in an earlier message. */
  lemma ResolvedExactly(messages: seq<Message>, table: Table, id: CallId, index: nat, call: ToolCall)
    requires TableOk(messages, Place(|messages|, 0), table)
    ensures Resolved(table, id, index) == Some(call) <==>
      exists p: Place :: OnlyCall(messages, Place(|messages|, 0), id, p, (p.message, call)) && p.message < index
  {
    var end := Place(|messages|, 0);
    assert EntryOk(messages, end, id, table);
    if p: Place :| OnlyCall(messages, end, id, p, (p.message, call)) && p.message < index {
      OneIsNotTwo(messages, end, id, p, (p.message, call));
    }
  }
}

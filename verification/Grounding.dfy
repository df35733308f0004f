/** The evidence a grounding check may draw on: recalled records, what the user
    said, and successful tool results whose call is beyond doubt. */
module Grounding {
  import opened Collections
  import opened Messages

  datatype EvidenceId =
    | FromRecord(record: RecordId)
    | FromUser(index: nat)
    | FromTool(call: CallId, at: nat)
    | FromMemory(key: nat)

  datatype Evidence = Evidence(id: EvidenceId, text: string)

  /** The tool tables, the reading of nested recall results, and the wording of
      operator injections, host notices and the truncation mark. */
  datatype Reader = Reader(
    recallTool: string -> bool,
    modelOutputTool: string -> bool,
    nested: (string, EvidenceId) -> Option<seq<Evidence>>,
    injection: string,
    injectionEnd: string,
    hostNotices: seq<string>,
    truncated: string)

  // ----- What the user said -----

  function StripEnd(s: string, end: string): string { if EndsWith(s, end) then s[..|s| - |end|] else s }

  /** Host feedback and control notices are instructions, not evidence. */
  predicate HostNotice(reader: Reader, text: string) {
    exists i | 0 <= i < |reader.hostNotices| :: StartsWith(text, reader.hostNotices[i])
  }

  function UserText(reader: Reader, content: string): string {
    var text := Trim(content);
    if StartsWith(text, reader.injection) then StripEnd(text[|reader.injection|..], reader.injectionEnd)
    else if HostNotice(reader, text) then ""
    else text
  }

  /** What the user said: an operator's injection without its frame, nothing of a
      host notice, and otherwise the trimmed text. */
  lemma UserSays(reader: Reader, content: string, said: string)
    ensures Trim(content) == reader.injection + said + reader.injectionEnd ==> UserText(reader, content) == said
    ensures Trim(content) == reader.injection + said && !EndsWith(said, reader.injectionEnd) ==>
      UserText(reader, content) == said
    ensures (forall rest :: Trim(content) != reader.injection + rest) ==>
      if exists i, rest :: 0 <= i < |reader.hostNotices| && Trim(content) == reader.hostNotices[i] + rest
      then UserText(reader, content) == "" else UserText(reader, content) == Trim(content)
  {
    var text := Trim(content);
    StartsExactly(text, reader.injection);
    NoticeExactly(reader, text);
    hide StartsWith, HostNotice, Trim;
    if text == reader.injection + said + reader.injectionEnd {
      assert text == reader.injection + (said + reader.injectionEnd);
      assert text[|reader.injection|..] == said + reader.injectionEnd;
      EndsExactly(said + reader.injectionEnd, reader.injectionEnd);
      assert (said + reader.injectionEnd)[..|said|] == said;
    } else if text == reader.injection + said {
      assert text[|reader.injection|..] == said;
    }
  }

  lemma NoticeExactly(reader: Reader, text: string)
    ensures HostNotice(reader, text)
      <==> exists i, rest :: 0 <= i < |reader.hostNotices| && text == reader.hostNotices[i] + rest
  {
    hide StartsWith;
    if i :| 0 <= i < |reader.hostNotices| && StartsWith(text, reader.hostNotices[i]) {
      StartsExactly(text, reader.hostNotices[i]);
    }
    if i, rest :| 0 <= i < |reader.hostNotices| && text == reader.hostNotices[i] + rest {
      StartsExactly(text, reader.hostNotices[i]);
    }
  }

  // ----- What one message contributes -----

  function IdOr(m: Message, other: EvidenceId): EvidenceId {
    if m.recordId.Some? then FromRecord(m.recordId.value) else other
  }

  /** The records a recall returned, or the mark that it was cut short. */
  function RecalledBy(reader: Reader, content: string, id: EvidenceId): seq<Evidence> {
    var nested := reader.nested(content, id);
    if nested.Some? then nested.value
    else if EndsWith(TrimEnd(content), reader.truncated) then [Evidence(id, reader.truncated)]
    else []
  }

  function ToolEvidence(reader: Reader, m: Message, name: string, id: EvidenceId): seq<Evidence> {
    if reader.recallTool(name) then RecalledBy(reader, m.content, id)
    else if !reader.modelOutputTool(name) then [Evidence(id, m.content)]
    else []
  }

  function Contribution(reader: Reader, table: Table, m: Message, index: nat): seq<Evidence> {
    if m.role == User then
      if UserText(reader, m.content) == ""
        then [] else [Evidence(IdOr(m, FromUser(index)), UserText(reader, m.content))]
    else if m.role != Tool || m.toolSucceeded != Some(true) || m.toolCallId.None? then []
    else
      var call := Resolved(table, m.toolCallId.value, index);
      if call.None? then []
      else ToolEvidence(reader, m, call.value.name, IdOr(m, FromTool(m.toolCallId.value, index)))
  }

  function Contributions(reader: Reader, table: Table, messages: seq<Message>, n: nat): seq<Evidence>
    requires n <= |messages|
  {
    if n == 0 then [] else
      Contributions(reader, table, messages, n - 1) + Contribution(reader, table, messages[n - 1], n - 1)
  }

  // ----- Retaining first occurrences -----

  /** Each item kept where it first occurs. */
  function Retained(items: seq<Evidence>, seen: set<Evidence>): seq<Evidence>
    decreases |items|
  {
    if items == [] then []
    else if items[0] in seen then Retained(items[1..], seen)
    else [items[0]] + Retained(items[1..], seen + {items[0]})
  }

  lemma {:induction false} RetainedOnce(items: seq<Evidence>, seen: set<Evidence>)
    ensures Distinct(Retained(items, seen))
    ensures ToSet(Retained(items, seen)) == ToSet(items) - seen
    decreases |items|
  {
    if items != [] {
      var first, rest := items[0], items[1..];
      assert items == [first] + rest;
      SetOfConcat([first], rest);
      if first in seen {
        RetainedOnce(rest, seen);
      } else {
        RetainedOnce(rest, seen + {first});
        var kept := Retained(rest, seen + {first});
        assert first !in ToSet(kept);
        SetOfConcat([first], kept);
      }
    }
  }

  method Retain(items: seq<Evidence>) returns (kept: seq<Evidence>)
    ensures kept == Retained(items, {})
  {
    kept := [];
    var seen: set<Evidence> := {};
    var i := 0;
    while i < |items|
      invariant i <= |items|
      invariant Retained(items, {}) == kept + Retained(items[i..], seen)
    {
      assert items[i..][1..] == items[i + 1..];
      if items[i] !in seen {
        kept := kept + [items[i]];
        seen := seen + {items[i]};
      }
      i := i + 1;
    }
    assert items[i..] == [];
  }

  /** `evidence_from_recall_and_messages`. */
  method EvidenceFrom(reader: Reader, recalled: seq<Evidence>, messages: seq<Message>)
    returns (evidence: seq<Evidence>, ghost table: Table)
    ensures TableOk(messages, Place(|messages|, 0), table)
    ensures evidence == Retained(recalled + Contributions(reader, table, messages, |messages|), {})
  {
    hide TableOk, Contribution, Retained;
    evidence := recalled;
    var calls := CallTable(messages);
    table := calls;
    assert recalled + [] == recalled;
    for i := 0 to |messages|
      invariant evidence == recalled + Contributions(reader, table, messages, i)
    {
      evidence := evidence + Contribution(reader, calls, messages[i], i);
    }
    evidence := Retain(evidence);
  }

  // ----- What counts as evidence -----

  /** A result counts exactly when it succeeded and its identifier was called
      once in the conversation, earlier: a recall for the records in it, another
      tool for what it says unless a model wrote that. */
  lemma ResultCountsExactly(reader: Reader, table: Table, messages: seq<Message>, i: nat, p: Place, call: ToolCall)
    requires TableOk(messages, Place(|messages|, 0), table) && i < |messages| && messages[i].role == Tool
    requires messages[i].toolCallId.Some?
      && OnlyCall(messages, Place(|messages|, 0), messages[i].toolCallId.value, p, (p.message, call))
    ensures var m := messages[i];
      var id := match m.recordId case Some(record) => FromRecord(record) case None => FromTool(m.toolCallId.value, i);
      Contribution(reader, table, m, i) ==
        if m.toolSucceeded != Some(true) || p.message >= i then []
        else if reader.recallTool(call.name) then
          match reader.nested(m.content, id)
          case Some(records) => records
          case None => if EndsWith(TrimEnd(m.content), reader.truncated) then [Evidence(id, reader.truncated)] else []
        else if reader.modelOutputTool(call.name) then [] else [Evidence(id, m.content)]
  {
    hide OnlyCall, TableOk;
    var id := messages[i].toolCallId.value;
    if p.message < i {
      ResolvedExactly(messages, table, id, i, call);
    } else if Resolved(table, id, i).Some? {
      ResolvedExactly(messages, table, id, i, Resolved(table, id, i).value);
      var q: Place :| OnlyCall(messages, Place(|messages|, 0), id, q, (q.message, Resolved(table, id, i).value))
        && q.message < i;
      SameCall(messages, id, p, call, q, Resolved(table, id, i).value);
    }
  }

  lemma SameCall(messages: seq<Message>, id: CallId, p: Place, a: ToolCall, q: Place, b: ToolCall)
    requires OnlyCall(messages, Place(|messages|, 0), id, p, (p.message, a))
    requires OnlyCall(messages, Place(|messages|, 0), id, q, (q.message, b))
    ensures p == q
  {
  }

  /** An identifier called twice, or never, corroborates nothing. */
  lemma AmbiguousCallsCountForNothing(reader: Reader, table: Table, messages: seq<Message>, i: nat)
    requires TableOk(messages, Place(|messages|, 0), table) && i < |messages| && messages[i].role == Tool
    requires forall id, p: Place, call | messages[i].toolCallId == Some(id) ::
      !OnlyCall(messages, Place(|messages|, 0), id, p, (p.message, call))
    ensures Contribution(reader, table, messages[i], i) == []
  {
    hide OnlyCall, TableOk;
    if messages[i].toolCallId.Some? {
      var id := messages[i].toolCallId.value;
      if Resolved(table, id, i).Some? {
        ResolvedExactly(messages, table, id, i, Resolved(table, id, i).value);
      }
    }
  }

  /** Nothing the assistant, the system or the host itself wrote is evidence. */
  lemma OwnWordsAreNotEvidence(reader: Reader, table: Table, m: Message, i: nat)
    requires m.role == Assistant || m.role == System
      || (m.role == User && HostNotice(reader, Trim(m.content)) && !StartsWith(Trim(m.content), reader.injection))
    ensures Contribution(reader, table, m, i) == []
  {
  }

  /** What the user said is evidence unless it is blank, under its record or its place. */
  lemma UserCountsExactly(reader: Reader, table: Table, m: Message, i: nat)
    requires m.role == User
    ensures var said := UserText(reader, m.content);
      && (said == "" ==> Contribution(reader, table, m, i) == [])
      && (said != "" && m.recordId.None? ==> Contribution(reader, table, m, i) == [Evidence(FromUser(i), said)])
      && (said != "" && m.recordId.Some? ==>
            Contribution(reader, table, m, i) == [Evidence(FromRecord(m.recordId.value), said)])
  {
  }

  /** Every item is a recalled record or some message's contribution, listed once. */
  lemma EvidenceIsSourced(reader: Reader, table: Table, recalled: seq<Evidence>, messages: seq<Message>, e: Evidence)
    ensures Distinct(Retained(recalled + Contributions(reader, table, messages, |messages|), {}))
    ensures e in Retained(recalled + Contributions(reader, table, messages, |messages|), {}) <==>
      e in recalled || exists i :: 0 <= i < |messages| && e in Contribution(reader, table, messages[i], i)
  {
    hide Retained, Contribution;
    var all := recalled + Contributions(reader, table, messages, |messages|);
    RetainedOnce(all, {});
    assert e in Retained(all, {}) <==> e in ToSet(Retained(all, {}));
    ContributedSomewhere(reader, table, messages, |messages|, e);
  }

  lemma {:induction false} ContributedSomewhere(reader: Reader, table: Table, messages: seq<Message>, n: nat,
                                                e: Evidence)
    requires n <= |messages|
    ensures e in Contributions(reader, table, messages, n) <==>
      exists i :: 0 <= i < n && e in Contribution(reader, table, messages[i], i)
    decreases n
  {
    hide Contribution;
    if n > 0 {
      ContributedSomewhere(reader, table, messages, n - 1, e);
    }
  }
}

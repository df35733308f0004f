/** Bounded reading of a text file, page by page. Offsets count characters. */
module Paging {
  import opened Collections

  const MAX_FILE_READ_CHARS: nat := 12_000
  const DEFAULT_BUDGET: nat := 16_384

  // ----- Numerals -----

  function Digit(n: nat): char
    requires n < 10
  {
    ('0' as int + n) as char
  }

  function Decimal(n: nat): (r: string)
    ensures r != []
  {
    if n < 10 then [Digit(n)] else Decimal(n / 10) + [Digit(n % 10)]
  }

  /** A smaller number is never written longer. */
  lemma {:induction false} DecimalGrows(a: nat, b: nat)
    requires a <= b
    ensures |Decimal(a)| <= |Decimal(b)|
    decreases b
  {
    if a >= 10 {
      DecimalGrows(a / 10, b / 10);
    }
  }

  /** The number a numeral stands for. */
  ghost function ReadNumber(s: string): int {
    if s == "" then 0 else 10 * ReadNumber(s[..|s| - 1]) + (s[|s| - 1] as int - '0' as int)
  }

  ghost predicate IsNumeral(s: string, n: nat) {
    && s != "" && (forall i | 0 <= i < |s| :: '0' <= s[i] <= '9') && (s[0] == '0' ==> s == "0")
    && ReadNumber(s) == n
  }

  /** A number's numeral reads back as the number, without leading zeros. */
  lemma {:induction false} DecimalReads(n: nat)
    ensures IsNumeral(Decimal(n), n)
  {
    if n >= 10 {
      DecimalReads(n / 10);
      assert Decimal(n)[..|Decimal(n)| - 1] == Decimal(n / 10);
      assert n / 10 >= 1;
      assert ReadNumber("0") == 0 by { assert "0"[..0] == ""; }
    } else {
      assert ReadNumber(Decimal(n)[..0]) == 0;
    }
  }

  // ----- The header -----

  function LineCount(text: string): nat {
    if text == [] then 0
    else (if |text| == 1 || text[0] == '\n' then 1 else 0) + LineCount(text[1..])
  }

  ghost function Breaks(text: string): nat {
    if text == "" then 0 else Breaks(text[..|text| - 1]) + if text[|text| - 1] == '\n' then 1 else 0
  }

  lemma {:induction false} FirstBreak(text: string)
    requires text != ""
    ensures Breaks(text) == Breaks(text[1..]) + if text[0] == '\n' then 1 else 0
    decreases |text|
  {
    if |text| > 1 {
      FirstBreak(text[..|text| - 1]);
      assert text[..|text| - 1][1..] == text[1..][..|text| - 2];
    }
  }

  /** A line for each break, and one more for text after the last. */
  lemma {:induction false} LinesExactly(text: string)
    ensures LineCount(text) == Breaks(text) + if text != "" && text[|text| - 1] != '\n' then 1 else 0
    decreases |text|
  {
    if text != "" {
      FirstBreak(text);
      LinesExactly(text[1..]);
    }
  }

  function Opening(path: string, text: string, offset: nat): string {
    "File: " + path + "\nSize: " + Decimal(|text|) + " chars, " + Decimal(LineCount(text)) + " lines\nOffset: "
    + Decimal(offset) + "\nEnd offset: "
  }

  function NextLabel(): string { "\nnext_offset: " }

  function Closing(): string {
    "\nContinue with file_read using offset=next_offset; null means EOF.\n\n=== Content ===\n"
  }

  function Next(text: string, end: nat): string { if end < |text| then Decimal(end) else "null" }

  function Header(path: string, text: string, offset: nat, end: nat): string {
    Opening(path, text, offset) + Decimal(end) + NextLabel() + Next(text, end) + Closing()
  }

  /** A header telling the file's size and lines, where the page starts and ends, and
      where to read on: nowhere exactly when the page reaches the end of the text. */
  ghost predicate Tells(header: string, path: string, text: string, offset: nat, end: nat,
                        size: string, lines: string, from: string, to: string, next: string)
  {
    && IsNumeral(size, |text|) && IsNumeral(lines, LineCount(text)) && IsNumeral(from, offset) && IsNumeral(to, end)
    && (if end < |text| then IsNumeral(next, end) else next == "null")
    && header == "File: " + path + "\nSize: " + size + " chars, " + lines + " lines\nOffset: " + from
         + "\nEnd offset: " + to + NextLabel() + next + Closing()
  }

  lemma HeaderTells(path: string, text: string, offset: nat, end: nat)
    ensures exists size, lines, from, to, next ::
      Tells(Header(path, text, offset, end), path, text, offset, end, size, lines, from, to, next)
  {
    hide IsNumeral, Decimal, Closing, NextLabel, LineCount, ReadNumber;
    DecimalReads(|text|);
    DecimalReads(LineCount(text));
    DecimalReads(offset);
    DecimalReads(end);
    assert Tells(Header(path, text, offset, end), path, text, offset, end, Decimal(|text|), Decimal(LineCount(text)),
                 Decimal(offset), Decimal(end), Next(text, end));
  }

  /** Room for the widest header a page of this text can have. */
  function Reserved(path: string, text: string, offset: nat): nat {
    hide Header;
    var last := |Header(path, text, offset, |text|)|;
    var inner := |Header(path, text, offset, if |text| > 0 then |text| - 1 else 0)|;
    if last >= inner then last else inner
  }

  lemma HeaderFits(path: string, text: string, offset: nat, end: nat)
    requires end <= |text|
    ensures |Header(path, text, offset, end)| <= Reserved(path, text, offset)
    ensures exists widest: nat ::
      widest <= |text| && |Header(path, text, offset, widest)| == Reserved(path, text, offset)
  {
    hide Opening, Closing, NextLabel, Decimal;
    if end < |text| {
      DecimalGrows(end, |text| - 1);
    }
  }

  // ----- Reading a page -----

  datatype Argument = Missing | Number(value: nat) | Invalid

  datatype Page = Page(output: string, content: string, end: nat)

  datatype Request = Request(offset: Argument, maxChars: Argument, budget: Option<nat>)

  function IntegerArg(a: Argument, default: nat): Result<nat> {
    match a
    case Missing => Ok(default)
    case Number(value) => Ok(value)
    case Invalid => Err("must be a nonnegative integer")
  }

  /** `FileReadTool::execute`, once the file's text is in hand. */
  function ReadPage(path: string, text: string, q: Request): Result<Page> {
    hide Header, Reserved;
    var offset, requested := IntegerArg(q.offset, 0), IntegerArg(q.maxChars, MAX_FILE_READ_CHARS);
    if offset.Err? then Err(offset.error)
    else if requested.Err? then Err(requested.error)
    else if requested.value == 0 || requested.value > MAX_FILE_READ_CHARS then
      Err("max_chars must be between 1 and 12000")
    else if offset.value > |text| then Err("offset exceeds file length")
    else
      var budget := if q.budget.Some? then q.budget.value else DEFAULT_BUDGET;
      var reserved := Reserved(path, text, offset.value);
      if budget < reserved then Err("file_read output budget is too small for pagination metadata")
      else if budget == reserved && offset.value < |text| then Err("file_read output budget leaves no room for content")
      else
        var most := if requested.value <= budget - reserved then requested.value else budget - reserved;
        var end := if most <= |text| - offset.value then offset.value + most else |text|;
        var content := text[offset.value..end];
        Ok(Page(Header(path, text, offset.value, end) + content, content, end))
  }

  function Budget(q: Request): nat { if q.budget.Some? then q.budget.value else DEFAULT_BUDGET }

  function Offset(q: Request): nat { if q.offset.Number? then q.offset.value else 0 }

  function Requested(q: Request): nat { if q.maxChars.Number? then q.maxChars.value else MAX_FILE_READ_CHARS }

  /** A page never exceeds its budget, holds exactly the text from its offset to
      its end, and moves on unless the text is finished. */
  lemma PageIsBounded(path: string, text: string, q: Request)
    requires ReadPage(path, text, q).Ok?
    ensures var p := ReadPage(path, text, q).value;
      && |p.output| <= Budget(q)
      && Offset(q) <= p.end <= |text| && p.content == text[Offset(q)..p.end]
      && |p.content| <= MAX_FILE_READ_CHARS
      && (Offset(q) < |text| ==> p.end > Offset(q))
  {
    hide Header, Reserved;
    var p := ReadPage(path, text, q).value;
    HeaderFits(path, text, Offset(q), p.end);
    HeaderIsPositive(path, text, Offset(q), p.end);
  }

  /** It holds as much as was asked for and there is room for, after its header. */
  lemma PageIsFull(path: string, text: string, q: Request)
    requires ReadPage(path, text, q).Ok?
    ensures var p := ReadPage(path, text, q).value;
      && p.output == Header(path, text, Offset(q), p.end) + p.content && |p.content| <= Requested(q)
      && (p.end < |text| ==>
            |p.content| == Requested(q) || |p.content| == Budget(q) - Reserved(path, text, Offset(q)))
  {
    hide Header, Reserved;
  }

  lemma HeaderIsPositive(path: string, text: string, offset: nat, end: nat)
    requires end <= |text|
    ensures 0 < |Header(path, text, offset, end)| <= Reserved(path, text, offset)
  {
    hide Opening, Closing, NextLabel;
    HeaderFits(path, text, offset, end);
  }

  /** Requests that follow `next_offset` from the start of the text. */
  predicate Follows(path: string, text: string, requests: seq<Request>) {
    hide ReadPage;
    if requests == [] then true
    else
      var last := requests[|requests| - 1];
      && Follows(path, text, requests[..|requests| - 1])
      && ReadPage(path, text, last).Ok?
      && Offset(last) == EndOf(path, text, requests[..|requests| - 1])
      && (|requests| > 1 ==> Offset(last) < |text|)
  }

  function EndOf(path: string, text: string, requests: seq<Request>): nat {
    hide ReadPage;
    if requests == [] then 0
    else
      var page := ReadPage(path, text, requests[|requests| - 1]);
      if page.Ok? then page.value.end else 0
  }

  function Contents(path: string, text: string, requests: seq<Request>): string {
    hide ReadPage;
    if requests == [] then ""
    else
      var page := ReadPage(path, text, requests[|requests| - 1]);
      Contents(path, text, requests[..|requests| - 1]) + if page.Ok? then page.value.content else ""
  }

  /** Pages read in turn join up to the text read so far; they end, after at
      most one page per character, with the whole of it. */
  lemma {:induction false} PagesJoin(path: string, text: string, requests: seq<Request>)
    requires Follows(path, text, requests)
    ensures EndOf(path, text, requests) <= |text|
    ensures Contents(path, text, requests) == text[..EndOf(path, text, requests)]
    ensures EndOf(path, text, requests) == |text| ==> Contents(path, text, requests) == text
    ensures text != "" ==> |requests| <= EndOf(path, text, requests)
    decreases |requests|
  {
    hide ReadPage;
    if requests != [] {
      var front, last := requests[..|requests| - 1], requests[|requests| - 1];
      PagesJoin(path, text, front);
      PageIsBounded(path, text, last);
    }
  }

  // ----- Reading to the end -----

  lemma HeaderGrows(path: string, text: string, a: nat, b: nat, end: nat)
    requires a <= b
    ensures |Header(path, text, a, end)| <= |Header(path, text, b, end)|
  {
    hide Closing, NextLabel, Decimal, Next;
    DecimalGrows(a, b);
  }

  /** A later offset never needs less room. */
  lemma ReservedGrows(path: string, text: string, a: nat, b: nat)
    requires a <= b
    ensures Reserved(path, text, a) <= Reserved(path, text, b)
  {
    hide Header;
    HeaderGrows(path, text, a, b, |text|);
    HeaderGrows(path, text, a, b, if |text| > 0 then |text| - 1 else 0);
  }

  predicate ValidArguments(q: Request) {
    !q.offset.Invalid? && (q.maxChars.Number? ==> 1 <= q.maxChars.value <= MAX_FILE_READ_CHARS) && !q.maxChars.Invalid?
  }

  /** A well-formed request at an offset of the text succeeds exactly when its
      budget leaves room for a character beside the header, or for the header
      alone at the end. */
  lemma SucceedsExactly(path: string, text: string, q: Request)
    requires ValidArguments(q) && Offset(q) <= |text|
    ensures ReadPage(path, text, q).Ok? <==>
      || Budget(q) > Reserved(path, text, Offset(q))
      || (Budget(q) == Reserved(path, text, Offset(q)) && Offset(q) == |text|)
  {
    hide Header, Reserved;
  }

  /** Room for a page at the last character of the text, or for an empty text's header. */
  predicate Roomy(path: string, text: string, budget: nat) {
    if text == "" then budget >= Reserved(path, text, 0) else budget > Reserved(path, text, |text| - 1)
  }

  lemma RoomAtTheEnd(path: string, text: string, budget: nat)
    requires budget > Reserved(path, text, |text|)
    ensures Roomy(path, text, budget)
  {
    hide Reserved;
    if text != "" {
      ReservedGrows(path, text, |text| - 1, |text|);
    }
  }

  /** With such a budget every request that still has something to read succeeds. */
  lemma NeverStuck(path: string, text: string, q: Request)
    requires ValidArguments(q) && Roomy(path, text, Budget(q))
    requires Offset(q) < |text| || (text == "" && Offset(q) == 0)
    ensures ReadPage(path, text, q).Ok?
  {
    hide Reserved, ReadPage;
    SucceedsExactly(path, text, q);
    if text != "" {
      ReservedGrows(path, text, Offset(q), |text| - 1);
    }
  }

  /** With room for a header and a character at the end of the text, every
      request at any offset up to it succeeds, and the whole text can be read. */
  lemma EveryOffsetReads(path: string, text: string, q: Request)
    requires ValidArguments(q) && Offset(q) <= |text| && Budget(q) > Reserved(path, text, |text|)
    ensures ReadPage(path, text, q).Ok? && Roomy(path, text, Budget(q))
  {
    hide Reserved, ReadPage;
    SucceedsExactly(path, text, q);
    ReservedGrows(path, text, Offset(q), |text|);
    RoomAtTheEnd(path, text, Budget(q));
  }

  /** Requests that all ask for `n` characters under one budget. */
  predicate Uniform(requests: seq<Request>, n: nat, budget: nat) {
    forall i | 0 <= i < |requests| :: requests[i].maxChars == Number(n) && requests[i].budget == Some(budget)
  }

  lemma FollowsMore(path: string, text: string, requests: seq<Request>, q: Request)
    requires Follows(path, text, requests) && ReadPage(path, text, q).Ok? && Offset(q) == EndOf(path, text, requests)
    requires requests != [] ==> Offset(q) < |text|
    ensures Follows(path, text, requests + [q])
    ensures EndOf(path, text, requests + [q]) == ReadPage(path, text, q).value.end
  {
    hide ReadPage;
    assert (requests + [q])[..|requests|] == requests;
  }

  /** Following `next_offset` under such a budget goes on to the end of the text. */
  lemma {:induction false} ReadOn(path: string, text: string, n: nat, budget: nat, requests: seq<Request>)
    returns (all: seq<Request>)
    requires 1 <= n <= MAX_FILE_READ_CHARS && Roomy(path, text, budget)
    requires Follows(path, text, requests) && Uniform(requests, n, budget)
    ensures Follows(path, text, all) && Uniform(all, n, budget) && requests <= all && all != []
    ensures EndOf(path, text, all) == |text|
    decreases |text| - EndOf(path, text, requests), if requests == [] then 1 else 0
  {
    hide ReadPage, Roomy, Follows, EndOf;
    PagesJoin(path, text, requests);
    StartsAtZero(path, text);
    var at := EndOf(path, text, requests);
    if at == |text| && requests != [] {
      all := requests;
    } else {
      var q := Request(Number(at), Number(n), Some(budget));
      NeverStuck(path, text, q);
      PageIsBounded(path, text, q);
      FollowsMore(path, text, requests, q);
      PagesJoin(path, text, requests + [q]);
      all := ReadOn(path, text, n, budget, requests + [q]);
    }
  }

  lemma StartsAtZero(path: string, text: string)
    ensures Follows(path, text, []) && EndOf(path, text, []) == 0
  {
  }

  /** The whole text can be read in pages of at most `n` characters under the budget. */
  ghost predicate Readable(path: string, text: string, n: nat, budget: nat) {
    exists requests :: Reads(path, text, n, budget, requests)
  }

  predicate Reads(path: string, text: string, n: nat, budget: nat, requests: seq<Request>) {
    && requests != [] && Follows(path, text, requests) && Uniform(requests, n, budget)
    && EndOf(path, text, requests) == |text|
  }

  /** Reading one character at a time, the last page starts at the last character. */
  lemma LastStart(path: string, text: string, budget: nat, requests: seq<Request>)
    requires Reads(path, text, 1, budget, requests)
    ensures requests != []
    ensures var last := requests[|requests| - 1];
      && ReadPage(path, text, last).Ok? && last.maxChars == Number(1) && Budget(last) == budget
      && Offset(last) <= |text| <= Offset(last) + 1 && (text != "" ==> Offset(last) == |text| - 1)
  {
    hide ReadPage;
    var front, last := requests[..|requests| - 1], requests[|requests| - 1];
    PagesJoin(path, text, front);
    PageIsBounded(path, text, last);
    OneAtATime(path, text, last);
  }

  lemma LastPage(path: string, text: string, budget: nat, requests: seq<Request>)
    requires Reads(path, text, 1, budget, requests)
    ensures Roomy(path, text, budget)
  {
    hide ReadPage, Reserved, Reads, Follows, Uniform;
    LastStart(path, text, budget, requests);
    var last := requests[|requests| - 1];
    OneAtATime(path, text, last);
    SucceedsExactly(path, text, last);
  }

  lemma OneAtATime(path: string, text: string, q: Request)
    requires ReadPage(path, text, q).Ok? && q.maxChars == Number(1)
    ensures ReadPage(path, text, q).value.end <= Offset(q) + 1 && ValidArguments(q)
  {
    hide Header, Reserved;
  }

  /** Whatever page size is asked for, following `next_offset` from the start
      reads the whole text, if and only if the budget leaves room for a page at
      the last character: the header there is the widest that has to be paid. */
  lemma ReadableExactly(path: string, text: string, budget: nat)
    ensures (forall n | 1 <= n <= MAX_FILE_READ_CHARS :: Readable(path, text, n, budget)) <==> Roomy(path, text, budget)
  {
    hide Follows, EndOf, Roomy, Uniform, ReadPage, Reserved;
    if Roomy(path, text, budget) {
      StartsAtZero(path, text);
      forall n | 1 <= n <= MAX_FILE_READ_CHARS
        ensures Readable(path, text, n, budget)
      {
        NothingAsked(n, budget);
        var requests := ReadOn(path, text, n, budget, []);
        assert Reads(path, text, n, budget, requests);
      }
    } else if Readable(path, text, 1, budget) {
      var requests :| Reads(path, text, 1, budget, requests);
      LastPage(path, text, budget, requests);
    }
  }

  lemma NothingAsked(n: nat, budget: nat)
    ensures Uniform([], n, budget)
  {
  }
}

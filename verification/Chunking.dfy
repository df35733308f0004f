/** Splitting a document into overlapping chunks of words without losing a
    character of it. */
module Chunking {
  import opened Collections
  import opened Messages

  /** A maximal run of non-space characters. */
  datatype Word = Word(start: nat, end: nat)

  predicate Spaces(text: string, from: nat, to: nat) {
    from <= to <= |text| && forall i | from <= i < to :: IsSpace(text[i])
  }

  predicate IsWord(text: string, w: Word) {
    w.start < w.end <= |text| && forall i | w.start <= i < w.end :: !IsSpace(text[i])
  }

  /** The words of `text` up to `upTo`, with nothing but space between them. */
  ghost predicate WordsOf(text: string, words: seq<Word>, upTo: nat) {
    && upTo <= |text|
    && (forall k | 0 <= k < |words| :: IsWord(text, words[k]) && words[k].end <= upTo)
    && (forall k | 0 <= k < |words| - 1 ::
        words[k].end < words[k + 1].start && Spaces(text, words[k].end, words[k + 1].start))
    && Spaces(text, 0, if words == [] then upTo else words[0].start)
    && (words != [] ==> Spaces(text, words[|words| - 1].end, upTo))
  }

  method FindWords(text: string) returns (words: seq<Word>)
    ensures WordsOf(text, words, |text|)
  {
    hide IsSpace, IsWord, WordsOf;
    words := [];
    var i := 0;
    NoWords(text);
    while i < |text|
      invariant 0 <= i <= |text| && WordsOf(text, words, i)
      invariant words != [] && i < |text| ==> words[|words| - 1].end < i || IsSpace(text[i])
    {
      if IsSpace(text[i]) {
        SpaceMore(text, words, i);
        i := i + 1;
      } else {
        var word := ScanWord(text, i);
        WordMore(text, words, word);
        words := words + [word];
        i := word.end;
      }
    }
  }

  lemma NoWords(text: string)
    ensures WordsOf(text, [], 0)
  {
  }

  lemma SpaceMore(text: string, words: seq<Word>, i: nat)
    requires WordsOf(text, words, i) && i < |text| && IsSpace(text[i])
    ensures WordsOf(text, words, i + 1) && (words != [] ==> words[|words| - 1].end <= i)
  {
    hide IsSpace, IsWord;
  }

  lemma WordMore(text: string, words: seq<Word>, word: Word)
    requires WordsOf(text, words, word.start) && IsWord(text, word)
    requires words != [] ==> words[|words| - 1].end < word.start
    ensures WordsOf(text, words + [word], word.end) && word.start < word.end <= |text|
  {
    hide IsSpace;
    var more := words + [word];
    forall k | 0 <= k < |more| - 1
      ensures more[k].end < more[k + 1].start && Spaces(text, more[k].end, more[k + 1].start)
    {
      if k + 1 < |words| {
        assert words[k].end < words[k + 1].start;
      }
    }
  }

  /** The word that starts at `start`. */
  method ScanWord(text: string, start: nat) returns (w: Word)
    requires start < |text| && !IsSpace(text[start])
    ensures w.start == start && IsWord(text, w) && (w.end < |text| ==> IsSpace(text[w.end]))
  {
    hide IsSpace;
    var i := start;
    while i < |text| && !IsSpace(text[i])
      invariant start <= i <= |text| && (i == start ==> !IsSpace(text[start]))
      invariant forall k | start <= k < i :: !IsSpace(text[k])
    {
      i := i + 1;
    }
    w := Word(start, i);
  }

  lemma {:induction false} WordsAscend(text: string, words: seq<Word>, j: nat, k: nat)
    requires WordsOf(text, words, |text|) && j <= k < |words|
    ensures words[j].start <= words[k].start && (j < k ==> words[j].end < words[k].start)
    decreases k
  {
    if j < k {
      WordsAscend(text, words, j, k - 1);
    }
  }

  /** Words `from` up to `to`, and the text they stand in. */
  datatype Chunk = Chunk(from: nat, to: nat)

  function ByteStart(words: seq<Word>, c: Chunk): nat
    requires c.from < |words|
  {
    if c.from == 0 then 0 else words[c.from].start
  }

  function ByteEnd(text: string, words: seq<Word>, c: Chunk): nat
    requires c.to <= |words|
  {
    if c.to == |words| then |text| else words[c.to].start
  }

  function At(k: nat, step: nat): nat { k * step }

  /** The `k`th window: `target` words, each window `overlap` words into the last. */
  function Window(words: nat, target: nat, overlap: nat, k: nat): Chunk
    requires overlap < target
  {
    var start := At(k, target - overlap);
    Chunk(start, if start + target <= words then start + target else words)
  }

  ghost predicate Sliced(text: string, words: seq<Word>, c: Chunk, s: string) {
    && c.from < c.to <= |words|
    && ByteStart(words, c) <= ByteEnd(text, words, c) <= |text|
    && s == text[ByteStart(words, c)..ByteEnd(text, words, c)]
  }

  lemma ChunkIsThere(text: string, words: seq<Word>, c: Chunk)
    requires WordsOf(text, words, |text|) && c.from < c.to <= |words|
    ensures ByteStart(words, c) <= words[c.from].start < words[c.to - 1].end <= ByteEnd(text, words, c) <= |text|
    ensures !Blank(text[ByteStart(words, c)..ByteEnd(text, words, c)])
  {
    WordsAscend(text, words, c.from, c.to - 1);
    if c.to < |words| {
      WordsAscend(text, words, c.to - 1, c.to);
    }
    assert IsWord(text, words[c.from]);
    var s := text[ByteStart(words, c)..ByteEnd(text, words, c)];
    assert s[words[c.from].start - ByteStart(words, c)] == text[words[c.from].start];
  }

  /** Successive windows, ending with the first that reaches the last word. */
  ghost predicate Windows(text: string, words: seq<Word>, target: nat, overlap: nat, chunks: seq<string>) {
    && overlap < target
    && forall k: nat | k < |chunks| :: Sliced(text, words, Window(|words|, target, overlap, k), chunks[k])
         && (k < |chunks| - 1 ==> Window(|words|, target, overlap, k).to < |words|)
  }

  /** The text from one word to another, taking in what surrounds the outermost. */
  method Slice(text: string, words: seq<Word>, start: nat, end: nat) returns (chunk: string)
    requires WordsOf(text, words, |text|) && start < end <= |words|
    ensures Sliced(text, words, Chunk(start, end), chunk) && !Blank(chunk)
  {
    hide WordsOf, Blank, IsSpace;
    ChunkIsThere(text, words, Chunk(start, end));
    var byteStart := if start == 0 then 0 else words[start].start;
    var byteEnd := if end == |words| then |text| else words[end].start;
    chunk := text[byteStart..byteEnd];
  }

  /** `chunk_words_preserving`. The caller checks `overlap < target`. */
  method ChunkWordsPreserving(text: string, target: nat, overlap: nat)
    returns (chunks: seq<string>, ghost words: seq<Word>)
    requires overlap < target
    ensures WordsOf(text, words, |text|)
    ensures words == [] <==> chunks == []
    ensures Windows(text, words, target, overlap, chunks)
    ensures chunks != [] ==> Window(|words|, target, overlap, |chunks| - 1).to == |words|
  {
    hide WordsOf, At, Blank, IsSpace, Sliced, ByteStart, ByteEnd;
    FirstAt(target - overlap);
    var found := FindWords(text);
    words, chunks := found, [];
    if found == [] {
      return;
    }
    var step := target - overlap;
    var start := 0;
    var finished := false;
    while start < |found| && !finished
      invariant !finished ==> start == At(|chunks|, step)
      invariant Windows(text, words, target, overlap, chunks)
      invariant !finished ==> forall k: nat | k < |chunks| :: Window(|words|, target, overlap, k).to < |words|
      invariant !finished && chunks != [] ==> start < |found|
      invariant finished ==> chunks != [] && Window(|words|, target, overlap, |chunks| - 1).to == |words|
      decreases |found| - start, !finished
    {
      var end := if start + target <= |found| then start + target else |found|;
      ghost var c := Window(|words|, target, overlap, |chunks|);
      assert c == Chunk(start, end);
      var chunk := Slice(text, found, start, end);
      if !Blank(chunk) {
        chunks := chunks + [chunk];
      }
      if end == |found| {
        finished := true;
      } else {
        StepOn(|chunks| - 1, step);
        start := start + step;
      }
    }
  }

  lemma FirstAt(step: nat)
    ensures At(0, step) == 0
  {
  }

  lemma StepOn(k: nat, step: nat)
    ensures At(k + 1, step) == At(k, step) + step
  {
  }

  // ----- What the chunks amount to -----

  /** A chunk has at most `target` words, and exactly `overlap` of them are the
      first of the next chunk. */
  lemma ChunksOverlap(text: string, words: seq<Word>, target: nat, overlap: nat, chunks: seq<string>, k: nat)
    requires Windows(text, words, target, overlap, chunks) && k < |chunks|
    ensures var c := Window(|words|, target, overlap, k);
      && 0 < c.to - c.from <= target
      && (k + 1 < |chunks| ==>
            var d := Window(|words|, target, overlap, k + 1);
            c.from < d.from && c.to - d.from == overlap && c.to < d.to)
  {
    StepOn(k, target - overlap);
    assert Sliced(text, words, Window(|words|, target, overlap, k), chunks[k]);
    if k + 1 < |chunks| {
      assert Sliced(text, words, Window(|words|, target, overlap, k + 1), chunks[k + 1]);
    }
  }

  /** The chunks up to the `n`th without what each shares with the one before. */
  ghost function Rejoined(text: string, words: seq<Word>, target: nat, overlap: nat, chunks: seq<string>,
                          n: nat): string
    requires overlap < target && n <= |chunks|
  {
    if n == 0 then ""
    else
      var next, chunk := Window(|words|, target, overlap, n - 1), chunks[n - 1];
      var start := if next.from < |words| then ByteStart(words, next) else 0;
      var shared := if n == 1 then 0 else ByteEnd(text, words, Window(|words|, target, overlap, n - 2)) - start;
      Rejoined(text, words, target, overlap, chunks, n - 1) + if 0 <= shared <= |chunk| then chunk[shared..] else chunk
  }

  /** Removing the shared spans restores the text, character for character. */
  lemma {:induction false} ChunksRestoreText(text: string, words: seq<Word>, target: nat, overlap: nat,
                                             chunks: seq<string>, n: nat)
    requires WordsOf(text, words, |text|) && Windows(text, words, target, overlap, chunks) && 0 < n <= |chunks|
    ensures Rejoined(text, words, target, overlap, chunks, n)
      == text[..ByteEnd(text, words, Window(|words|, target, overlap, n - 1))]
    ensures Window(|words|, target, overlap, n - 1).to == |words| ==>
      Rejoined(text, words, target, overlap, chunks, n) == text
    decreases n
  {
    hide WordsOf, Window;
    assert Sliced(text, words, Window(|words|, target, overlap, n - 1), chunks[n - 1]);
    if n == 1 {
      assert Window(|words|, target, overlap, 0).from == 0 by { FirstWindow(|words|, target, overlap); }
      assert Rejoined(text, words, target, overlap, chunks, 0) == "";
    } else {
      ChunksRestoreText(text, words, target, overlap, chunks, n - 1);
      ChunksOverlap(text, words, target, overlap, chunks, n - 2);
      assert Sliced(text, words, Window(|words|, target, overlap, n - 2), chunks[n - 2]);
      var before, last := Window(|words|, target, overlap, n - 2), Window(|words|, target, overlap, n - 1);
      SharedSpan(text, words, before, last);
    }
  }

  lemma FirstWindow(words: nat, target: nat, overlap: nat)
    requires overlap < target
    ensures Window(words, target, overlap, 0).from == 0
  {
  }

  lemma SharedSpan(text: string, words: seq<Word>, before: Chunk, last: Chunk)
    requires WordsOf(text, words, |text|) && 0 < last.from <= before.to < last.to <= |words|
    ensures ByteStart(words, last) <= ByteEnd(text, words, before) <= ByteEnd(text, words, last) <= |text|
  {
    WordsAscend(text, words, last.from, before.to);
    if last.to < |words| {
      WordsAscend(text, words, before.to, last.to);
    }
    assert IsWord(text, words[before.to]);
  }
}

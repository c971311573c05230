/**
 The text helpers of the document processor (document_processor.py):
 cutting a text into overlapping chunks of whole sentences, and the
 reading-time estimate. File extraction, cleaning and PII removal are not
 modelled.
 */
module Documents {
  import opened Common
  import opened Text

  const SentenceBreak: string := ". "
  const Period: string := "."
  const DefaultChunkSize: int := 1000
  const DefaultOverlap: int := 100
  const DefaultWordsPerMinute: int := 200

  /** Total number of characters in a list of sentences. */
  function TotalLen(ss: seq<string>): nat {
    if |ss| == 0 then 0 else TotalLen(ss[..|ss| - 1]) + |ss[|ss| - 1]|
  }

  lemma {:induction false} TotalLenAppend(a: seq<string>, b: seq<string>)
    ensures TotalLen(a + b) == TotalLen(a) + TotalLen(b)
    decreases |b|
  {
    if |b| == 0 {
      assert a + b == a;
    } else {
      assert (a + b)[..|a + b| - 1] == a + b[..|b| - 1];
      TotalLenAppend(a, b[..|b| - 1]);
    }
  }

  /**
   The overlap carried into the next chunk: sentences taken from the end
   of the closed chunk for as long as they fit in the budget together.
   */
  function TakeTail(ss: seq<string>, budget: int): (r: seq<string>)
    ensures |r| <= |ss| && r == ss[|ss| - |r|..]
    ensures r == [] || TotalLen(r) <= budget
    ensures |r| < |ss| ==> TotalLen(r) + |ss[|ss| - |r| - 1]| > budget
  {
    if |ss| == 0 then []
    else
      var last := ss[|ss| - 1];
      if |last| <= budget then
        var front := TakeTail(ss[..|ss| - 1], budget - |last|);
        TotalLenAppend(front, [last]);
        assert [last][..0] == [];
        front + [last]
      else []
  }

  /**
   One chunk as lists of sentences: those repeated from the previous
   chunk, and those it adds. Its text is all of them joined.
   */
  datatype Chunk = Chunk(carried: seq<string>, added: seq<string>) {
    function Sentences(): seq<string> { carried + added }

    /** The chunk as it stood once its first j added sentences were in. */
    function Upto(j: nat): seq<string>
      requires j <= |added|
    {
      carried + added[..j]
    }
  }

  /** The sentences the chunks add, in order. */
  function AddedOf(chunks: seq<Chunk>): seq<string> {
    if |chunks| == 0 then [] else AddedOf(chunks[..|chunks| - 1]) + chunks[|chunks| - 1].added
  }

  /**
   A chunk follows the one before when it carries over that one's overlap
   tail and its first added sentence would have pushed that one past the
   chunk size.
   */
  ghost predicate Follows(before: Chunk, after: Chunk, chunkSize: int, overlap: int)
    requires |after.added| >= 1
  {
    && after.carried == TakeTail(before.Sentences(), overlap)
    && TotalLen(before.Sentences()) + |after.added[0]| > chunkSize
  }

  /**
   The chunking rule: every chunk adds at least one sentence; the first
   carries nothing over; a later chunk carries over the tail of the one
   before that fits in the overlap, and exists only because the first
   sentence it adds would have pushed that one past the chunk size; and a
   chunk takes a further sentence only while it stays within the size.
   */
  ghost predicate WellChunked(chunks: seq<Chunk>, chunkSize: int, overlap: int) {
    && (forall k :: 0 <= k < |chunks| ==> |chunks[k].added| >= 1)
    && (|chunks| > 0 ==> chunks[0].carried == [])
    && (forall k :: 1 <= k < |chunks| ==> Follows(chunks[k - 1], chunks[k], chunkSize, overlap))
    && (forall k, j :: 0 <= k < |chunks| && 2 <= j <= |chunks[k].added| ==>
          TotalLen(chunks[k].Upto(j)) <= chunkSize)
  }

  /** Closing the current chunk keeps the rule when the current chunk follows it. */
  lemma CloseChunk(chunks: seq<Chunk>, current: Chunk, chunkSize: int, overlap: int)
    requires WellChunked(chunks, chunkSize, overlap)
    requires |current.added| >= 1
    requires |chunks| == 0 ==> current.carried == []
    requires |chunks| > 0 ==> Follows(chunks[|chunks| - 1], current, chunkSize, overlap)
    requires forall j :: 2 <= j <= |current.added| ==> TotalLen(current.Upto(j)) <= chunkSize
    ensures WellChunked(chunks + [current], chunkSize, overlap)
  {
    var r := chunks + [current];
    forall k | 0 <= k < |r|
      ensures |r[k].added| >= 1
    {
      if k < |chunks| {
        assert r[k] == chunks[k];
      }
    }
    forall k | 1 <= k < |r|
      ensures Follows(r[k - 1], r[k], chunkSize, overlap)
    {
      assert r[k - 1] == chunks[k - 1];
      if k < |chunks| {
        assert r[k] == chunks[k];
      }
    }
    forall k, j | 0 <= k < |r| && 2 <= j <= |r[k].added|
      ensures TotalLen(r[k].Upto(j)) <= chunkSize
    {
      if k < |chunks| {
        assert r[k] == chunks[k];
      }
    }
  }

  /**
   The loop state of `chunk_text` after reading `done`: the closed chunks
   and the open one, whose character count is `size`. Together they add
   exactly the sentences read; the open chunk is empty only before the
   first sentence, and once closed it would keep the chunking rule.
   */
  ghost predicate Open(chunks: seq<Chunk>, current: Chunk, size: int, done: seq<string>, chunkSize: int, overlap: int) {
    && Within(current, size, chunkSize)
    && AddedOf(chunks) + current.added == done
    && (|done| == 0 ==> chunks == [] && current == Chunk([], []))
    && (|done| > 0 ==> |current.added| >= 1)
    && (|chunks| == 0 ==> current.carried == [])
    && (|chunks| > 0 ==> |current.added| >= 1 && Follows(chunks[|chunks| - 1], current, chunkSize, overlap))
    && WellChunked(chunks, chunkSize, overlap)
  }

  /**
   The open chunk has `size` characters, and each sentence after its first
   added one went in without taking it past the chunk size.
   */
  ghost predicate Within(c: Chunk, size: int, chunkSize: int) {
    && size == TotalLen(c.Sentences())
    && (forall j :: 2 <= j <= |c.added| ==> TotalLen(c.Upto(j)) <= chunkSize)
  }

  /** A sentence that does not fit closes the open chunk and opens the next with the overlap. */
  lemma StartNext(chunks: seq<Chunk>, current: Chunk, size: int, done: seq<string>, sentence: string, chunkSize: int, overlap: int)
    requires Open(chunks, current, size, done, chunkSize, overlap)
    requires size + |sentence| > chunkSize && |current.Sentences()| > 0
    ensures var next := Chunk(TakeTail(current.Sentences(), overlap), [sentence]);
            Open(chunks + [current], next, TotalLen(next.carried) + |sentence|, done + [sentence], chunkSize, overlap)
  {
    CloseChunk(chunks, current, chunkSize, overlap);
    var next := Chunk(TakeTail(current.Sentences(), overlap), [sentence]);
    TotalLenAppend(next.carried, [sentence]);
    assert [sentence][..0] == [];
    assert AddedOf(chunks + [current]) == AddedOf(chunks) + current.added by {
      assert (chunks + [current])[..|chunks|] == chunks;
    }
  }

  lemma UptoAll(c: Chunk)
    ensures c.Upto(|c.added|) == c.Sentences()
  {
    assert c.added[..|c.added|] == c.added;
  }

  lemma UptoExtend(c: Chunk, sentence: string, j: nat)
    requires j <= |c.added|
    ensures Chunk(c.carried, c.added + [sentence]).Upto(j) == c.Upto(j)
  {
    assert (c.added + [sentence])[..j] == c.added[..j];
  }

  /** A sentence that fits, or the first one, keeps the open chunk within the size. */
  lemma ExtendWithin(c: Chunk, size: int, sentence: string, chunkSize: int)
    requires Within(c, size, chunkSize)
    requires !(size + |sentence| > chunkSize && |c.Sentences()| > 0)
    ensures Within(Chunk(c.carried, c.added + [sentence]), size + |sentence|, chunkSize)
  {
    var next := Chunk(c.carried, c.added + [sentence]);
    assert next.Sentences() == c.Sentences() + [sentence];
    TotalLenAppend(c.Sentences(), [sentence]);
    assert [sentence][..0] == [];
    UptoAll(next);
    forall j | 2 <= j <= |next.added|
      ensures TotalLen(next.Upto(j)) <= chunkSize
    {
      if j <= |c.added| {
        UptoExtend(c, sentence, j);
      } else {
        assert j == |next.added|;
      }
    }
  }

  lemma AppendAssoc(a: seq<string>, b: seq<string>, x: string)
    ensures (a + b) + [x] == a + (b + [x])
  {
  }

  /** A sentence that fits, or the first one, joins the open chunk. */
  lemma Extend(chunks: seq<Chunk>, current: Chunk, size: int, done: seq<string>, sentence: string, chunkSize: int, overlap: int)
    requires Open(chunks, current, size, done, chunkSize, overlap)
    requires !(size + |sentence| > chunkSize && |current.Sentences()| > 0)
    ensures Open(chunks, Chunk(current.carried, current.added + [sentence]), size + |sentence|, done + [sentence], chunkSize, overlap)
  {
    var next := Chunk(current.carried, current.added + [sentence]);
    ExtendWithin(current, size, sentence, chunkSize);
    AppendAssoc(AddedOf(chunks), current.added, sentence);
    if |chunks| > 0 {
      assert next.added[0] == current.added[0];
    }
  }

  lemma PrefixSnoc(s: seq<string>, i: int)
    requires 0 <= i < |s|
    ensures s[..i + 1] == s[..i] + [s[i]]
  {
  }

  /** The chunks once the open one, if it holds anything, is closed. */
  function CloseLast(chunks: seq<Chunk>, current: Chunk): seq<Chunk> {
    if |current.Sentences()| > 0 then chunks + [current] else chunks
  }

  /** Closing the open chunk at the end leaves chunks that add up to the input and keep the rule. */
  lemma Finish(chunks: seq<Chunk>, current: Chunk, size: int, sentences: seq<string>, chunkSize: int, overlap: int)
    requires Open(chunks, current, size, sentences, chunkSize, overlap)
    ensures var r := CloseLast(chunks, current);
            && (|r| == 0 <==> |sentences| == 0)
            && AddedOf(r) == sentences
            && WellChunked(r, chunkSize, overlap)
  {
    if |current.Sentences()| > 0 {
      CloseChunk(chunks, current, chunkSize, overlap);
      assert AddedOf(chunks + [current]) == AddedOf(chunks) + current.added by {
        assert (chunks + [current])[..|chunks|] == chunks;
      }
    }
  }

  /**
   What a chunk carries over is a tail of the chunk before it, of at most
   `overlap` characters unless it is empty.
   */
  lemma CarriedIsTail(chunks: seq<Chunk>, chunkSize: int, overlap: int, k: int)
    requires WellChunked(chunks, chunkSize, overlap)
    requires 1 <= k < |chunks|
    ensures var c := chunks[k].carried;
            var before := chunks[k - 1].Sentences();
            && |c| <= |before| && c == before[|before| - |c|..]
            && (c == [] || TotalLen(c) <= overlap)
  {
    assert Follows(chunks[k - 1], chunks[k], chunkSize, overlap);
  }

  /** One turn of the chunking loop: close and restart, or extend the open chunk. */
  function Step(chunks: seq<Chunk>, current: Chunk, size: int, sentence: string, chunkSize: int, overlap: int): (seq<Chunk>, Chunk, int) {
    if size + |sentence| > chunkSize && |current.Sentences()| > 0 then
      var next := Chunk(TakeTail(current.Sentences(), overlap), [sentence]);
      (chunks + [current], next, TotalLen(next.carried) + |sentence|)
    else
      (chunks, Chunk(current.carried, current.added + [sentence]), size + |sentence|)
  }

  /** A turn of the loop keeps the loop state valid, one sentence further on. */
  lemma StepOpen(chunks: seq<Chunk>, current: Chunk, size: int, done: seq<string>, sentence: string, chunkSize: int, overlap: int)
    requires Open(chunks, current, size, done, chunkSize, overlap)
    ensures var (c, o, n) := Step(chunks, current, size, sentence, chunkSize, overlap);
            Open(c, o, n, done + [sentence], chunkSize, overlap)
  {
    if size + |sentence| > chunkSize && |current.Sentences()| > 0 {
      StartNext(chunks, current, size, done, sentence, chunkSize, overlap);
    } else {
      Extend(chunks, current, size, done, sentence, chunkSize, overlap);
    }
  }

  /**
   `chunk_text` on the sentence list: a sentence joins the open chunk
   unless the chunk is non-empty and the sentence would take it past
   `chunkSize` characters; then the chunk is closed and a new one starts
   with the closed chunk's overlap tail and the sentence.
   */
  method ChunkSentences(sentences: seq<string>, chunkSize: int, overlap: int) returns (chunks: seq<Chunk>)
    ensures |chunks| == 0 <==> |sentences| == 0
    ensures AddedOf(chunks) == sentences
    ensures WellChunked(chunks, chunkSize, overlap)
  {
    chunks := [];
    var current := Chunk([], []);
    var size := 0;
    for i := 0 to |sentences|
      invariant Open(chunks, current, size, sentences[..i], chunkSize, overlap)
    {
      PrefixSnoc(sentences, i);
      StepOpen(chunks, current, size, sentences[..i], sentences[i], chunkSize, overlap);
      var (c, o, n) := Step(chunks, current, size, sentences[i], chunkSize, overlap);
      chunks, current, size := c, o, n;
    }
    assert sentences[..|sentences|] == sentences;
    Finish(chunks, current, size, sentences, chunkSize, overlap);
    chunks := CloseLast(chunks, current);
  }

  /**
   `chunk_text`: the text split at ". ", chunked, and each chunk's
   sentences joined with ". " and closed with a period.
   */
  method ChunkText(text: string, chunkSize: int, overlap: int) returns (r: seq<string>, chunks: seq<Chunk>)
    ensures |r| >= 1 && |r| == |chunks|
    ensures forall k :: 0 <= k < |r| ==> r[k] == Join(SentenceBreak, chunks[k].Sentences()) + Period
    ensures forall k :: 0 <= k < |r| ==> r[k][|r[k]| - 1] == '.'
    ensures AddedOf(chunks) == Split(text, SentenceBreak)
    ensures forall k :: 0 <= k < |AddedOf(chunks)| ==> !Mentions(AddedOf(chunks)[k], SentenceBreak)
    ensures Join(SentenceBreak, AddedOf(chunks)) == text
    ensures WellChunked(chunks, chunkSize, overlap)
  {
    var sentences := Split(text, SentenceBreak);
    chunks := ChunkSentences(sentences, chunkSize, overlap);
    r := seq(|chunks|, k requires 0 <= k < |chunks| => Join(SentenceBreak, chunks[k].Sentences()) + Period);
  }

  // ------------------------------------------------------------ reading time

  /**
   `estimate_reading_time`: whole minutes at `wpm` words a minute, at
   least one; `None` for a rate of 0, where `//` raises.
   */
  function EstimateReadingTime(text: string, wpm: int): (r: Option<int>)
    ensures r.None? <==> wpm == 0
    ensures r.Some? ==> r.value >= 1
    ensures r.Some? && wpm > 0 && r.value > 1 ==> r.value * wpm <= WordCount(text) < (r.value + 1) * wpm
    ensures r.Some? && wpm > 0 && r.value == 1 ==> WordCount(text) < 2 * wpm
  {
    if wpm == 0 then None else Some(Max(1, FloorDiv(WordCount(text), wpm)))
  }

  lemma MultiplyMonotone(x: int, y: int, w: nat)
    requires x <= y
    ensures x * w <= y * w
  {
  }

  lemma MultiplySuccessor(x: int, w: int)
    ensures (x + 1) * w == x * w + w
  {
  }

  /** A text with more words never reads faster. */
  lemma ReadingTimeMonotone(a: string, b: string, wpm: int)
    requires wpm > 0 && WordCount(a) <= WordCount(b)
    ensures EstimateReadingTime(a, wpm).value <= EstimateReadingTime(b, wpm).value
  {
    var qa, qb := FloorDiv(WordCount(a), wpm), FloorDiv(WordCount(b), wpm);
    if qa > qb {
      MultiplyMonotone(qb + 1, qa, wpm);
      MultiplySuccessor(qb, wpm);
    }
  }

  /** Two texts read one after the other, with a space between, take at least as long as either. */
  lemma ReadingTimeOfJoined(a: string, b: string, wpm: int)
    requires wpm > 0
    ensures EstimateReadingTime(a, wpm).value <= EstimateReadingTime(a + " " + b, wpm).value
  {
    WordCountSpaced(a, b);
    ReadingTimeMonotone(a, a + " " + b, wpm);
  }
}

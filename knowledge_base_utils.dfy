/**
 * The knowledge base's helpers (agents/knowledge_base/utils.py): the required-field check
 * on new knowledge and the chunker that cuts text into overlapping windows.
 *
 * The chunker as written only returns when the text fits in one chunk or the windows do
 * not overlap; `ProcessChunk` models it on that domain and `ChunkLoopNeverEnds` shows that
 * everywhere else (the configured 1000/200 included) its loop runs forever. The knowledge
 * base uses `ProcessChunkFixed`, which stops after the window that reaches the end.
 */
module KnowledgeBaseUtils {
  import opened PyValues

  // ---------------------------------------------------------------- validate_knowledge_input

  const RequiredKnowledgeFields: seq<string> := ["content", "metadata", "source"]

  /** `validate_knowledge_input`: every required field is a key. */
  predicate ValidateKnowledgeInput(data: PyDict) {
    forall f :: f in RequiredKnowledgeFields ==> f in Keys(data)
  }

  /** The check looks at the keys only: an extra key never changes its answer. */
  lemma ValidateKnowledgeIgnoresExtraKeys(data: PyDict, k: string, v: Value)
    requires k !in RequiredKnowledgeFields
    ensures ValidateKnowledgeInput(Put(data, k, v)) <==> ValidateKnowledgeInput(data)
  {
    PutKeys(data, k, v);
  }

  /** A dictionary holding exactly the three fields passes; one without `content` does not. */
  lemma ValidateKnowledgeExamples(content: Value, metadata: Value, source: Value)
    ensures ValidateKnowledgeInput([Pair("content", content), Pair("metadata", metadata), Pair("source", source)])
    ensures !ValidateKnowledgeInput([Pair("metadata", metadata), Pair("source", source)])
  {
    var full := [Pair("content", content), Pair("metadata", metadata), Pair("source", source)];
    assert Keys(full) == ["content", "metadata", "source"];
    var partial := [Pair("metadata", metadata), Pair("source", source)];
    assert Keys(partial) == ["metadata", "source"];
    assert "content" in RequiredKnowledgeFields;
  }

  // ---------------------------------------------------------------- process_chunk, as written

  /** The sizes `process_chunk` defaults to, which the knowledge base's configuration also
      sets. */
  const DefaultChunkSize: int := 1000
  const DefaultChunkOverlap: int := 200

  function Min(a: int, b: int): int {
    if a < b then a else b
  }

  /** Where one window ends: `start + chunk_size`, cut back to the end of the text. */
  function ChunkEnd(n: nat, chunkSize: int, start: int): int {
    Min(start + chunkSize, n)
  }

  /** One pass of the loop: the next window starts `overlap` before this one's end. */
  function NextStart(n: nat, chunkSize: int, overlap: int, start: int): int {
    ChunkEnd(n, chunkSize, start) - overlap
  }

  /** Where the `k`-th pass of the loop starts. */
  function ChunkStart(n: nat, chunkSize: int, overlap: int, k: nat): int {
    if k == 0 then 0 else NextStart(n, chunkSize, overlap, ChunkStart(n, chunkSize, overlap, k - 1))
  }

  /** The inputs on which `process_chunk` returns: the text fits in one chunk, or is empty,
      or every pass moves the start forward and the last one moves it past the end. */
  predicate ChunkLoopEnds(n: nat, chunkSize: int, overlap: int) {
    n <= chunkSize || n == 0 || (overlap <= 0 && chunkSize > overlap)
  }

  /** The windows from `start` on, on the domain where the loop ends. */
  function ChunksFrom(text: string, chunkSize: int, overlap: int, start: nat): (chunks: seq<string>)
    requires |text| > 0 ==> overlap <= 0 && chunkSize > overlap
    decreases |text| - start
  {
    if start >= |text| then []
    else [Slice(text, start, ChunkEnd(|text|, chunkSize, start))]
         + ChunksFrom(text, chunkSize, overlap, NextStart(|text|, chunkSize, overlap, start))
  }

  /** `process_chunk(text, chunk_size, overlap)` where it returns. */
  function Chunks(text: string, chunkSize: int, overlap: int): seq<string>
    requires ChunkLoopEnds(|text|, chunkSize, overlap)
  {
    if |text| <= chunkSize then [text] else ChunksFrom(text, chunkSize, overlap, 0)
  }

  /** `process_chunk` as written, on the inputs where it returns. */
  method ProcessChunk(text: string, chunkSize: int, overlap: int) returns (chunks: seq<string>)
    requires ChunkLoopEnds(|text|, chunkSize, overlap)
    ensures chunks == Chunks(text, chunkSize, overlap)
  {
    chunks := [];
    if |text| <= chunkSize {
      return [text];
    }
    var start := 0;
    while start < |text|
      invariant |text| > 0 ==> overlap <= 0 && chunkSize > overlap
      invariant start >= 0
      invariant chunks + ChunksFrom(text, chunkSize, overlap, start) == Chunks(text, chunkSize, overlap)
      decreases |text| - start
    {
      var end := start + chunkSize;
      if end > |text| {
        end := |text|;
      }
      ghost var rest := ChunksFrom(text, chunkSize, overlap, end - overlap);
      assert ChunksFrom(text, chunkSize, overlap, start) == [Slice(text, start, end)] + rest;
      assert chunks + [Slice(text, start, end)] + rest == chunks + ([Slice(text, start, end)] + rest);
      chunks := chunks + [Slice(text, start, end)];
      start := end - overlap;
    }
  }

  /** Off the domain above the loop never stops: for text longer than one chunk, every
      pass starts inside the text. With overlapping windows the start is stuck at or below
      `len(text) - overlap`; with windows no longer than the overlap it never moves up. */
  lemma {:induction false} ChunkLoopNeverEnds(n: nat, chunkSize: int, overlap: int, k: nat)
    requires n > chunkSize && n > 0 && !ChunkLoopEnds(n, chunkSize, overlap)
    ensures ChunkStart(n, chunkSize, overlap, k) < n
    ensures overlap > 0 && chunkSize > overlap ==> ChunkStart(n, chunkSize, overlap, k) <= n - overlap
    ensures chunkSize <= overlap ==> ChunkStart(n, chunkSize, overlap, k) <= 0
  {
    if k > 0 {
      ChunkLoopNeverEnds(n, chunkSize, overlap, k - 1);
    }
  }

  /** Once a window reaches the end of the text, the next pass starts at
      `len(text) - overlap` again and appends the same last window, forever. */
  lemma ChunkLoopStuck(text: string, chunkSize: int, overlap: int)
    requires 0 < overlap <= chunkSize && overlap <= |text|
    ensures NextStart(|text|, chunkSize, overlap, |text| - overlap) == |text| - overlap < |text|
    ensures Slice(text, |text| - overlap, ChunkEnd(|text|, chunkSize, |text| - overlap)) == text[|text| - overlap..]
  {
  }

  /** With the default sizes (1000 and 200), any content longer than 1000 characters
      makes the loop run forever. */
  lemma DefaultChunkingHangs(n: nat, k: nat)
    requires n > DefaultChunkSize
    ensures !ChunkLoopEnds(n, DefaultChunkSize, DefaultChunkOverlap)
            && ChunkStart(n, DefaultChunkSize, DefaultChunkOverlap, k) < n
  {
    ChunkLoopNeverEnds(n, DefaultChunkSize, DefaultChunkOverlap, k);
  }

  /** Where it returns, the as-written chunker with no overlap puts the text back together. */
  lemma {:induction false} ChunksFromNoOverlap(text: string, chunkSize: int, start: nat)
    requires chunkSize > 0 && start <= |text|
    ensures Concat(ChunksFrom(text, chunkSize, 0, start)) == text[start..]
    decreases |text| - start
  {
    if start < |text| {
      var end := ChunkEnd(|text|, chunkSize, start);
      var rest := ChunksFrom(text, chunkSize, 0, end);
      ChunksFromNoOverlap(text, chunkSize, end);
      assert ChunksFrom(text, chunkSize, 0, start) == [text[start..end]] + rest;
      assert ([text[start..end]] + rest)[1..] == rest;
      assert text[start..] == text[start..end] + text[end..];
    }
  }

  /** Where it returns, the as-written chunker cuts windows of at most `chunk_size`
      characters. */
  lemma {:induction false} ChunksFromBound(text: string, chunkSize: int, overlap: int, start: nat)
    requires overlap <= 0 && chunkSize > 0
    ensures forall c :: c in ChunksFrom(text, chunkSize, overlap, start) ==> |c| <= chunkSize
    decreases |text| - start
  {
    if start < |text| {
      var end := ChunkEnd(|text|, chunkSize, start);
      var rest := ChunksFrom(text, chunkSize, overlap, NextStart(|text|, chunkSize, overlap, start));
      ChunksFromBound(text, chunkSize, overlap, NextStart(|text|, chunkSize, overlap, start));
      assert ChunksFrom(text, chunkSize, overlap, start) == [text[start..end]] + rest;
    }
  }

  function Concat(chunks: seq<string>): string {
    if chunks == [] then [] else chunks[0] + Concat(chunks[1..])
  }

  // ---------------------------------------------------------------- process_chunk, corrected

  /** The windows from `start` on, stopping after the window that reaches the end. */
  function FixedChunksFrom(text: string, chunkSize: int, overlap: int, start: nat): (chunks: seq<string>)
    requires 0 <= overlap < chunkSize && start < |text|
    ensures |chunks| > 0
    decreases |text| - start
  {
    var end := ChunkEnd(|text|, chunkSize, start);
    if end == |text| then [text[start..end]]
    else [text[start..end]] + FixedChunksFrom(text, chunkSize, overlap, end - overlap)
  }

  /** The chunker as intended: one chunk for text that fits, otherwise windows of
      `chunk_size` characters, each starting `overlap` before the previous one ends, the
      last one ending at the end of the text. */
  function FixedChunks(text: string, chunkSize: int, overlap: int): (chunks: seq<string>)
    requires 0 <= overlap < chunkSize
    ensures |chunks| > 0
  {
    if |text| <= chunkSize then [text] else FixedChunksFrom(text, chunkSize, overlap, 0)
  }

  /** The corrected `process_chunk`: the loop stops once a window reaches the end. */
  method ProcessChunkFixed(text: string, chunkSize: int, overlap: int) returns (chunks: seq<string>)
    requires 0 <= overlap < chunkSize
    ensures chunks == FixedChunks(text, chunkSize, overlap)
  {
    if |text| <= chunkSize {
      return [text];
    }
    chunks := [];
    var start := 0;
    while true
      invariant 0 <= start < |text|
      invariant chunks + FixedChunksFrom(text, chunkSize, overlap, start) == FixedChunks(text, chunkSize, overlap)
      decreases |text| - start
    {
      var end := start + chunkSize;
      if end > |text| {
        end := |text|;
      }
      chunks := chunks + [text[start..end]];
      if end == |text| {
        return;
      }
      start := end - overlap;
    }
  }

  /** Everything after the first `overlap` characters of each chunk, joined. */
  function Fresh(chunks: seq<string>, overlap: nat): string {
    if chunks == [] then []
    else (if overlap <= |chunks[0]| then chunks[0][overlap..] else []) + Fresh(chunks[1..], overlap)
  }

  /** Undoing the overlap: the first chunk, then what each later chunk adds. */
  function Reassemble(chunks: seq<string>, overlap: nat): string
    requires |chunks| > 0
  {
    chunks[0] + Fresh(chunks[1..], overlap)
  }

  /** Each window is `text[start:end]` for the window's own bounds, at most `chunk_size`
      long, and the windows after one that started at `start` contribute exactly the text
      from `start + overlap` on. */
  lemma {:induction false} FixedChunksFromSpec(text: string, chunkSize: int, overlap: nat, start: nat)
    requires overlap < chunkSize && start < |text| && start + overlap <= |text|
    ensures var chunks := FixedChunksFrom(text, chunkSize, overlap, start);
            chunks[0] == text[start..ChunkEnd(|text|, chunkSize, start)]
            && (forall i :: 0 <= i < |chunks| ==> |chunks[i]| <= chunkSize)
            && Fresh(chunks, overlap) == text[start + overlap..]
    decreases |text| - start
  {
    var end := ChunkEnd(|text|, chunkSize, start);
    if end < |text| {
      FixedChunksFromSpec(text, chunkSize, overlap, end - overlap);
      var rest := FixedChunksFrom(text, chunkSize, overlap, end - overlap);
      assert FixedChunksFrom(text, chunkSize, overlap, start) == [text[start..end]] + rest;
      assert text[start..end][overlap..] == text[start + overlap..end];
      assert text[start + overlap..] == text[start + overlap..end] + text[end..];
    } else {
      assert text[start..end][overlap..] == text[start + overlap..];
    }
  }

  /** The corrected chunker loses nothing: dropping each later chunk's overlap and joining
      gives the text back, no chunk is longer than `chunk_size`, and the first chunk starts
      the text. */
  lemma FixedChunksRoundTrip(text: string, chunkSize: int, overlap: nat)
    requires overlap < chunkSize
    ensures var chunks := FixedChunks(text, chunkSize, overlap);
            Reassemble(chunks, overlap) == text
            && (forall i :: 0 <= i < |chunks| ==> |chunks[i]| <= chunkSize || |text| <= chunkSize)
            && chunks[0] == text[..|chunks[0]|]
  {
    if |text| > chunkSize {
      FixedChunksFromSpec(text, chunkSize, overlap, 0);
      var chunks := FixedChunks(text, chunkSize, overlap);
      var end := ChunkEnd(|text|, chunkSize, 0);
      if end < |text| {
        FixedChunksFromSpec(text, chunkSize, overlap, end - overlap);
        assert chunks == [text[..end]] + FixedChunksFrom(text, chunkSize, overlap, end - overlap);
        assert text == text[..end] + text[end..];
      }
    }
  }

  /** Consecutive windows overlap by exactly `overlap` characters: the next window starts
      with the last `overlap` characters of the one before. */
  lemma FixedChunksOverlap(text: string, chunkSize: int, overlap: nat, start: nat)
    requires overlap < chunkSize && start < |text| && ChunkEnd(|text|, chunkSize, start) < |text|
    ensures var chunks := FixedChunksFrom(text, chunkSize, overlap, start);
            |chunks| >= 2 && |chunks[0]| == chunkSize && |chunks[1]| >= overlap
            && chunks[0][chunkSize - overlap..] == chunks[1][..overlap]
  {
    var end := ChunkEnd(|text|, chunkSize, start);
    var chunks := FixedChunksFrom(text, chunkSize, overlap, start);
    var next := FixedChunksFrom(text, chunkSize, overlap, end - overlap);
    assert chunks == [text[start..end]] + next;
    var nextEnd := ChunkEnd(|text|, chunkSize, end - overlap);
    assert next[0] == text[end - overlap..nextEnd];
    assert chunks[0][chunkSize - overlap..] == text[end - overlap..end];
    assert next[0][..overlap] == text[end - overlap..end];
  }

  // ---------------------------------------------------------------- the chunker the knowledge base runs

  /** The inputs on which the knowledge base's chunking returns: sizes the corrected
      chunker is defined for, or an input on which the loop as written ends. On any other
      input the loop as written never ends (`ChunkLoopNeverEnds`), and no correction that
      stops at the end of the text helps, since with `overlap >= chunk_size` the start never
      moves forward. */
  predicate ChunkingReturns(n: nat, chunkSize: int, overlap: int) {
    (0 <= overlap < chunkSize) || ChunkLoopEnds(n, chunkSize, overlap)
  }

  /** The chunks the knowledge base stores: the corrected chunker where it is defined, the
      one as written elsewhere. */
  function StoredChunks(text: string, chunkSize: int, overlap: int): seq<string>
    requires ChunkingReturns(|text|, chunkSize, overlap)
  {
    if 0 <= overlap < chunkSize then FixedChunks(text, chunkSize, overlap) else Chunks(text, chunkSize, overlap)
  }

  /** Chunking `text` for the knowledge base, by the loop that fits the sizes. */
  method ChunkContent(text: string, chunkSize: int, overlap: int) returns (chunks: seq<string>)
    requires ChunkingReturns(|text|, chunkSize, overlap)
    ensures chunks == StoredChunks(text, chunkSize, overlap)
  {
    if 0 <= overlap < chunkSize {
      chunks := ProcessChunkFixed(text, chunkSize, overlap);
    } else {
      chunks := ProcessChunk(text, chunkSize, overlap);
    }
  }

  /** Text that fits in one chunk is stored as that one chunk, whatever the sizes, as the
      early return of `process_chunk` does; longer text is chunked only on sizes where
      the chunking returns. */
  lemma StoredChunksShort(text: string, chunkSize: int, overlap: int)
    requires |text| <= chunkSize
    ensures ChunkingReturns(|text|, chunkSize, overlap)
    ensures StoredChunks(text, chunkSize, overlap) == [text]
  {
  }

  /** Where the loop as written ends, the corrected chunker cuts the same windows: the
      correction changes only the inputs on which the source never returns. */
  lemma FixedChunksAgree(text: string, chunkSize: int, overlap: int)
    requires 0 <= overlap < chunkSize && ChunkLoopEnds(|text|, chunkSize, overlap)
    ensures FixedChunks(text, chunkSize, overlap) == Chunks(text, chunkSize, overlap)
  {
    if |text| > chunkSize {
      FixedChunksFromAgree(text, chunkSize, 0);
    }
  }

  /** Without overlap, the windows from `start` on are the same under both loops. */
  lemma {:induction false} FixedChunksFromAgree(text: string, chunkSize: int, start: nat)
    requires 0 < chunkSize && start < |text|
    ensures FixedChunksFrom(text, chunkSize, 0, start) == ChunksFrom(text, chunkSize, 0, start)
    decreases |text| - start
  {
    var end := ChunkEnd(|text|, chunkSize, start);
    assert ChunksFrom(text, chunkSize, 0, start) == [text[start..end]] + ChunksFrom(text, chunkSize, 0, end);
    if end < |text| {
      FixedChunksFromAgree(text, chunkSize, end);
    } else {
      assert ChunksFrom(text, chunkSize, 0, end) == [];
    }
  }
}

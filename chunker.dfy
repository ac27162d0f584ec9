/** FixedSizeTextChunker: cuts a text into overlapping fixed-width windows.
    With step = chunkSize - overlapSize, window k is
    text[k*step .. min(k*step + chunkSize, |text|)]; a text no longer than
    chunkSize yields one chunk holding all of it (also when it is empty).
    The code neither clamps nor validates the sizes, so
    0 <= overlapSize < chunkSize is required of callers. */
module Chunker {
  import opened Common

  /** Where window k starts: k steps of `step` from the beginning, the value
      `position` has when the loop emits chunk k. */
  function WindowStart(step: nat, k: nat): nat
  {
    if k == 0 then 0 else WindowStart(step, k - 1) + step
  }

  /** Window k of the text; the end is cut off at the end of the text. */
  function Window(text: string, chunkSize: nat, step: nat, k: nat): string
    requires WindowStart(step, k) <= |text|
  {
    text[WindowStart(step, k) .. Min(WindowStart(step, k) + chunkSize, |text|)]
  }

  /** ceil(a / b) for a, b > 0, by repeated subtraction. */
  function CeilDiv(a: nat, b: nat): nat
    requires b > 0
  {
    if a <= b then 1 else 1 + CeilDiv(a - b, b)
  }

  /** How many chunks a text of length len is cut into. */
  function ChunkCount(len: nat, chunkSize: nat, step: nat): nat
    requires step > 0
  {
    if len <= chunkSize then 1 else CeilDiv(len, step)
  }

  /** createChunk: the chunk record for one window. */
  function CreateChunk(doc: ExtractedContent, chunkText: string, chunkIndex: nat, id: Uuid): TextChunk
  {
    var base := map[
      "document_id" := IdText(doc.id),
      "chunk_index" := Int(chunkIndex),
      "chunk_text_length" := Int(|chunkText|)];
    var metadata := if "source_type" in doc.metadata
      then base["source_type" := doc.metadata["source_type"]]
      else base;
    TextChunk(id, Some(doc.id), doc.source, chunkText, metadata, chunkIndex)
  }

  /** A created chunk belongs to its document and its metadata holds exactly
      document_id, chunk_index, chunk_text_length and, when the document has
      one, source_type. */
  lemma CreateChunkFields(doc: ExtractedContent, chunkText: string, chunkIndex: nat, id: Uuid)
    ensures var c := CreateChunk(doc, chunkText, chunkIndex, id);
      c.id == id && c.documentId == Some(doc.id) && c.source == doc.source &&
      c.content == chunkText && c.chunkIndex == chunkIndex &&
      c.metadata.Keys ==
        {"document_id", "chunk_index", "chunk_text_length"} +
        (if "source_type" in doc.metadata then {"source_type"} else {}) &&
      c.metadata["document_id"] == IdText(doc.id) &&
      c.metadata["chunk_index"] == Int(chunkIndex) &&
      c.metadata["chunk_text_length"] == Int(|chunkText|) &&
      ("source_type" in c.metadata <==> "source_type" in doc.metadata) &&
      ("source_type" in doc.metadata ==> c.metadata["source_type"] == doc.metadata["source_type"])
  {
  }

  /** Window k starts at k * step. */
  lemma {:induction false} WindowStartIsProduct(step: nat, k: nat)
    ensures WindowStart(step, k) == k * step
  {
    if k > 0 {
      WindowStartIsProduct(step, k - 1);
      assert (k - 1) * step + step == k * step;
    }
  }

  /** Later windows start later. */
  lemma {:induction false} WindowStartMonotone(step: nat, j: nat, k: nat)
    requires j <= k
    ensures WindowStart(step, j) <= WindowStart(step, k)
  {
    if j < k {
      WindowStartMonotone(step, j, k - 1);
    }
  }

  /** The count n = ceil(len / step) of a long text is the one number whose
      windows reach the end of the text while its last window starts inside it. */
  lemma {:induction false} CeilDivCharacterized(len: nat, step: nat, n: nat)
    requires step > 0 && len > 0
    ensures n == CeilDiv(len, step) <==>
      n >= 1 && WindowStart(step, n) >= len && WindowStart(step, n - 1) < len
  {
    if len <= step {
      if n >= 2 {
        WindowStartMonotone(step, 1, n - 1);
      }
    } else if n >= 1 {
      CeilDivCharacterized(len - step, step, n - 1);
    }
  }

  /** a == q*b + r with 0 <= r < b determines a / b. */
  lemma DivIsUnique(a: nat, b: nat, q: nat, r: nat)
    requires b > 0 && a == q * b + r && r < b
    ensures a / b == q
  {
    var q', r' := a / b, a % b;
    assert a == q' * b + r' && r' < b;
    if q' < q {
      MulStep(q', q, b);
    } else if q < q' {
      MulStep(q, q', b);
    }
  }

  /** x < y implies x*b + b <= y*b. */
  lemma {:induction false} MulStep(x: nat, y: nat, b: nat)
    requires x < y
    ensures x * b + b <= y * b
  {
    if x + 1 < y {
      MulStep(x, y - 1, b);
      assert (y - 1) * b + b == y * b;
    } else {
      assert (x + 1) * b == x * b + b;
    }
  }

  /** The repeated-subtraction ceiling is the usual (a + b - 1) / b. */
  lemma {:induction false} CeilDivIsDivision(a: nat, b: nat)
    requires a > 0 && b > 0
    ensures CeilDiv(a, b) == (a + b - 1) / b
  {
    if a <= b {
      DivIsUnique(a + b - 1, b, 1, a - 1);
    } else {
      CeilDivIsDivision(a - b, b);
      var q := (a - b + b - 1) / b;
      var r := (a - b + b - 1) % b;
      assert a - b + b - 1 == q * b + r;
      DivIsUnique(a + b - 1, b, q + 1, r);
    }
  }

  /** Every window of the chunking starts inside the text (or at 0 for an
      empty text), and the windows of a long text reach its end. */
  lemma WindowsStartInText(len: nat, chunkSize: nat, step: nat)
    requires 0 < step <= chunkSize
    ensures var n := ChunkCount(len, chunkSize, step);
      n >= 1 && (len > chunkSize ==> WindowStart(step, n) >= len)
    ensures forall k :: 0 <= k < ChunkCount(len, chunkSize, step) ==>
      WindowStart(step, k) <= len && (len > chunkSize ==> WindowStart(step, k) < len)
  {
    var n := ChunkCount(len, chunkSize, step);
    if len > chunkSize {
      CeilDivCharacterized(len, step, n);
      forall k | 0 <= k < n
        ensures WindowStart(step, k) < len
      {
        WindowStartMonotone(step, k, n - 1);
      }
    }
  }

  /** The first n chunks of the sliding window with step `step`, chunk k
      carrying the fresh id newId(k). */
  function Chunks(doc: ExtractedContent, chunkSize: nat, step: nat, newId: nat -> Uuid, n: nat): (cs: seq<TextChunk>)
    requires n == 0 || WindowStart(step, n - 1) <= |doc.content|
    ensures |cs| == n
  {
    if n == 0 then
      []
    else
      Chunks(doc, chunkSize, step, newId, n - 1) +
      [CreateChunk(doc, Window(doc.content, chunkSize, step, n - 1), n - 1, newId(n - 1))]
  }

  /** Chunk k among the first n is the chunk created for window k. */
  lemma {:induction false} ChunksAt(doc: ExtractedContent, chunkSize: nat, step: nat, newId: nat -> Uuid, n: nat, k: nat)
    requires n == 0 || WindowStart(step, n - 1) <= |doc.content|
    requires k < n
    ensures WindowStart(step, k) <= |doc.content|
    ensures Chunks(doc, chunkSize, step, newId, n)[k] ==
      CreateChunk(doc, Window(doc.content, chunkSize, step, k), k, newId(k))
  {
    if k < n - 1 {
      ChunksAt(doc, chunkSize, step, newId, n - 1, k);
    }
  }

  /** The chunks `chunk(document, chunkSize, overlapSize)` returns. */
  function ChunkSpec(doc: ExtractedContent, chunkSize: nat, overlapSize: nat, newId: nat -> Uuid): (cs: seq<TextChunk>)
    requires overlapSize < chunkSize
    ensures |cs| == ChunkCount(|doc.content|, chunkSize, chunkSize - overlapSize)
  {
    var step := chunkSize - overlapSize;
    WindowsStartInText(|doc.content|, chunkSize, step);
    Chunks(doc, chunkSize, step, newId, ChunkCount(|doc.content|, chunkSize, step))
  }

  /** Chunk k of the specification is the chunk created for window k. */
  lemma ChunkAt(doc: ExtractedContent, chunkSize: nat, overlapSize: nat, newId: nat -> Uuid, k: nat)
    requires overlapSize < chunkSize
    requires k < |ChunkSpec(doc, chunkSize, overlapSize, newId)|
    ensures WindowStart(chunkSize - overlapSize, k) <= |doc.content|
    ensures ChunkSpec(doc, chunkSize, overlapSize, newId)[k] ==
      CreateChunk(doc, Window(doc.content, chunkSize, chunkSize - overlapSize, k), k, newId(k))
    ensures ChunkSpec(doc, chunkSize, overlapSize, newId)[k].content ==
      Window(doc.content, chunkSize, chunkSize - overlapSize, k)
  {
    var step := chunkSize - overlapSize;
    WindowsStartInText(|doc.content|, chunkSize, step);
    ChunksAt(doc, chunkSize, step, newId, ChunkCount(|doc.content|, chunkSize, step), k);
  }

  class FixedSizeTextChunker {
    const defaultChunkSize: int
    const defaultOverlapSize: int

    constructor (defaultChunkSize: int, defaultOverlapSize: int)
      ensures this.defaultChunkSize == defaultChunkSize
      ensures this.defaultOverlapSize == defaultOverlapSize
    {
      this.defaultChunkSize := defaultChunkSize;
      this.defaultOverlapSize := defaultOverlapSize;
    }

    /** chunk(document): the sliding window with the configured sizes. */
    method Chunk(doc: ExtractedContent, newId: nat -> Uuid) returns (chunks: seq<TextChunk>)
      requires 0 <= defaultOverlapSize < defaultChunkSize
      ensures chunks == ChunkSpec(doc, defaultChunkSize, defaultOverlapSize, newId)
    {
      chunks := ChunkWith(doc, defaultChunkSize, defaultOverlapSize, newId);
    }

    /** chunk(document, chunkSize, overlapSize). */
    method ChunkWith(doc: ExtractedContent, chunkSize: int, overlapSize: int, newId: nat -> Uuid)
      returns (chunks: seq<TextChunk>)
      requires 0 <= overlapSize < chunkSize
      ensures chunks == ChunkSpec(doc, chunkSize, overlapSize, newId)
    {
      var text := doc.content;
      var textLength := |text|;
      if textLength <= chunkSize {
        chunks := [CreateChunk(doc, text, 0, newId(0))];
        assert Window(text, chunkSize, chunkSize - overlapSize, 0) == text;
        return;
      }
      var step := chunkSize - overlapSize;
      var position := 0;
      var chunkIndex := 0;
      chunks := [];
      while position < textLength
        invariant position == WindowStart(step, chunkIndex)
        invariant chunkIndex > 0 ==> position - step < textLength
        invariant chunks == Chunks(doc, chunkSize, step, newId, chunkIndex)
        decreases textLength - position
      {
        var end := Min(position + chunkSize, textLength);
        var chunkText := text[position..end];
        chunks := chunks + [CreateChunk(doc, chunkText, chunkIndex, newId(chunkIndex))];
        chunkIndex := chunkIndex + 1;
        position := position + step;
        if position >= textLength {
          break;
        }
      }
      CeilDivCharacterized(textLength, step, chunkIndex);
      assert chunkIndex == ChunkCount(textLength, chunkSize, step);
      assert ChunkSpec(doc, chunkSize, overlapSize, newId) == Chunks(doc, chunkSize, step, newId, chunkIndex);
    }
  }

  // ---------------------------------------------------------------------
  // Properties of the chunking

  /** A text no longer than chunkSize (the empty text included) gives exactly
      one chunk, holding the whole text, with index 0. */
  lemma ShortTextIsOneChunk(doc: ExtractedContent, chunkSize: nat, overlapSize: nat, newId: nat -> Uuid)
    requires overlapSize < chunkSize && |doc.content| <= chunkSize
    ensures var cs := ChunkSpec(doc, chunkSize, overlapSize, newId);
      |cs| == 1 && cs[0].content == doc.content && cs[0].chunkIndex == 0
  {
    WindowsStartInText(|doc.content|, chunkSize, chunkSize - overlapSize);
    ChunkAt(doc, chunkSize, overlapSize, newId, 0);
  }

  /** A longer text is cut into n = ceil(len / step) chunks: the last window
      starts inside the text and the windows together reach its end. */
  lemma LongTextChunkCount(doc: ExtractedContent, chunkSize: nat, overlapSize: nat, newId: nat -> Uuid)
    requires overlapSize < chunkSize && |doc.content| > chunkSize
    ensures var cs := ChunkSpec(doc, chunkSize, overlapSize, newId);
      var step := chunkSize - overlapSize;
      |cs| == (|doc.content| + step - 1) / step &&
      |cs| * step >= |doc.content| && (|cs| - 1) * step < |doc.content|
  {
    var step := chunkSize - overlapSize;
    var n := |ChunkSpec(doc, chunkSize, overlapSize, newId)|;
    CeilDivIsDivision(|doc.content|, step);
    CeilDivCharacterized(|doc.content|, step, n);
    WindowStartIsProduct(step, n);
    WindowStartIsProduct(step, n - 1);
  }

  /** Chunk k is text[k*step .. min(k*step + chunkSize, len)] (k*step being
      WindowStart(step, k)), indices run 0, 1, ..., n-1 without gaps, and every
      chunk is at most chunkSize long and non-empty when the text is longer
      than chunkSize. */
  lemma ChunkShape(doc: ExtractedContent, chunkSize: nat, overlapSize: nat, newId: nat -> Uuid, k: nat)
    requires overlapSize < chunkSize
    requires k < |ChunkSpec(doc, chunkSize, overlapSize, newId)|
    ensures var cs := ChunkSpec(doc, chunkSize, overlapSize, newId);
      var start := WindowStart(chunkSize - overlapSize, k);
      start <= |doc.content| &&
      cs[k].content == doc.content[start .. Min(start + chunkSize, |doc.content|)] &&
      cs[k].chunkIndex == k && cs[k].id == newId(k) &&
      |cs[k].content| <= chunkSize &&
      (|doc.content| > chunkSize ==> |cs[k].content| > 0)
  {
    WindowsStartInText(|doc.content|, chunkSize, chunkSize - overlapSize);
    ChunkAt(doc, chunkSize, overlapSize, newId, k);
  }

  /** A full chunk shares its last overlapSize characters with the next
      chunk. */
  lemma ConsecutiveChunksOverlap(doc: ExtractedContent, chunkSize: nat, overlapSize: nat, newId: nat -> Uuid, k: nat)
    requires overlapSize < chunkSize
    requires k + 1 < |ChunkSpec(doc, chunkSize, overlapSize, newId)|
    requires |ChunkSpec(doc, chunkSize, overlapSize, newId)[k].content| == chunkSize
    ensures var cs := ChunkSpec(doc, chunkSize, overlapSize, newId);
      var step := chunkSize - overlapSize;
      |cs[k + 1].content| >= overlapSize &&
      cs[k].content[step..] == cs[k + 1].content[..overlapSize]
  {
    var cs := ChunkSpec(doc, chunkSize, overlapSize, newId);
    var step := chunkSize - overlapSize;
    var text := doc.content;
    ChunkAt(doc, chunkSize, overlapSize, newId, k);
    ChunkAt(doc, chunkSize, overlapSize, newId, k + 1);
    var s := WindowStart(step, k);
    assert WindowStart(step, k + 1) == s + step;
    assert Min(s + chunkSize, |text|) == s + chunkSize;
    assert cs[k + 1].content[..overlapSize] == text[s + step .. s + chunkSize];
  }

  /** Every character position of the text lies inside some chunk. */
  lemma ChunksCoverText(doc: ExtractedContent, chunkSize: nat, overlapSize: nat, newId: nat -> Uuid, p: nat)
    requires overlapSize < chunkSize && p < |doc.content|
    ensures var cs := ChunkSpec(doc, chunkSize, overlapSize, newId);
      exists k :: 0 <= k < |cs| &&
        WindowStart(chunkSize - overlapSize, k) <= p < WindowStart(chunkSize - overlapSize, k) + |cs[k].content| &&
        cs[k].content[p - WindowStart(chunkSize - overlapSize, k)] == doc.content[p]
  {
    var cs := ChunkSpec(doc, chunkSize, overlapSize, newId);
    var step := chunkSize - overlapSize;
    var len := |doc.content|;
    WindowsStartInText(len, chunkSize, step);
    if len <= chunkSize {
      ChunkAt(doc, chunkSize, overlapSize, newId, 0);
      assert WindowStart(step, 0) == 0;
    } else {
      var k := LastStartAtOrBefore(step, p, |cs|);
      ChunkAt(doc, chunkSize, overlapSize, newId, k);
    }
  }

  /** The last window start at or before position p, among windows 0..n-1
      whose next start lies beyond p. */
  lemma {:induction false} LastStartAtOrBefore(step: nat, p: nat, n: nat) returns (k: nat)
    requires step > 0 && n >= 1 && WindowStart(step, n) > p
    ensures k < n && WindowStart(step, k) <= p < WindowStart(step, k) + step
  {
    if WindowStart(step, n - 1) <= p {
      k := n - 1;
    } else {
      k := LastStartAtOrBefore(step, p, n - 1);
    }
  }

  /** Every chunk belongs to the document: its documentId and source are the
      document's, and its metadata records the document id, its own index and
      length, and forwards source_type exactly when the document has one. */
  lemma ChunkMetadata(doc: ExtractedContent, chunkSize: nat, overlapSize: nat, newId: nat -> Uuid, k: nat)
    requires overlapSize < chunkSize
    requires k < |ChunkSpec(doc, chunkSize, overlapSize, newId)|
    ensures var c := ChunkSpec(doc, chunkSize, overlapSize, newId)[k];
      c.documentId == Some(doc.id) && c.source == doc.source &&
      {"document_id", "chunk_index", "chunk_text_length"} <= c.metadata.Keys &&
      c.metadata["document_id"] == IdText(doc.id) &&
      c.metadata["chunk_index"] == Int(k) &&
      c.metadata["chunk_text_length"] == Int(|c.content|) &&
      ("source_type" in c.metadata <==> "source_type" in doc.metadata) &&
      ("source_type" in doc.metadata ==> c.metadata["source_type"] == doc.metadata["source_type"])
  {
    var cs := ChunkSpec(doc, chunkSize, overlapSize, newId);
    ChunkAt(doc, chunkSize, overlapSize, newId, k);
    CreateChunkFields(doc, cs[k].content, k, newId(k));
  }

  /** The four windows of the alphabet with size 10 and step 7. */
  lemma AlphabetWindows(text: string)
    requires text == "abcdefghijklmnopqrstuvwxyz"
    ensures WindowStart(7, 3) <= |text|
    ensures Window(text, 10, 7, 0) == "abcdefghij" && Window(text, 10, 7, 1) == "hijklmnopq"
    ensures Window(text, 10, 7, 2) == "opqrstuvwx" && Window(text, 10, 7, 3) == "vwxyz"
  {
    assert WindowStart(7, 1) == 7 && WindowStart(7, 2) == 14 && WindowStart(7, 3) == 21;
    assert Window(text, 10, 7, 0) == text[0..10];
    assert Window(text, 10, 7, 1) == text[7..17];
    assert Window(text, 10, 7, 2) == text[14..24];
    assert Window(text, 10, 7, 3) == text[21..26];
  }

  /** The worked example: size 10, overlap 3 over the 26 letters. */
  lemma AlphabetExample(doc: ExtractedContent, newId: nat -> Uuid)
    requires doc.content == "abcdefghijklmnopqrstuvwxyz"
    ensures Contents(ChunkSpec(doc, 10, 3, newId)) ==
      ["abcdefghij", "hijklmnopq", "opqrstuvwx", "vwxyz"]
  {
    var cs := ChunkSpec(doc, 10, 3, newId);
    assert CeilDiv(26, 7) == 4;
    AlphabetWindows(doc.content);
    ChunkAt(doc, 10, 3, newId, 0);
    ChunkAt(doc, 10, 3, newId, 1);
    ChunkAt(doc, 10, 3, newId, 2);
    ChunkAt(doc, 10, 3, newId, 3);
    assert Contents(cs) == [cs[0].content, cs[1].content, cs[2].content, cs[3].content];
  }
}

/** PostgresVectorStorage: upserts embedded chunks, keyed by id, into the
    knowledge_chunks table. The table is a map from id to row; a write that
    the database (or the JSON serialisation) refuses is modelled by the
    `accepts` parameter, the %.6f number formatter by the `fmt` field. */
module VectorStorage {
  import opened Common
  import opened JavaStrings

  /** One row of knowledge_chunks, apart from its id. */
  datatype Row = Row(source: string, content: string, metadata: Metadata, embedding: string)

  type Table = map<Uuid, Row>

  /** Whether the database takes the write of a chunk. */
  type Accepts = EmbeddedChunk -> bool

  datatype StorageError =
    | ChunkFailed(id: Uuid)                  // store: "Failed to store embedded chunk"
    | SubBatchFailed(cause: StorageError)    // storeBatchParallel: "Failed to store batch of chunks"
    | BatchFailed(cause: StorageError)       // storeBatch: "Failed to store embedded chunks in batch"

  /** The enhanced metadata that store writes. */
  function Enrich(c: EmbeddedChunk): Metadata
  {
    var withDocument := if c.documentId.Some?
      then c.metadata["document_id" := IdText(c.documentId.value)]
      else c.metadata;
    var withIndex := withDocument["chunk_index" := Int(c.chunkIndex)];
    if c.embeddingModel.Some?
      then withIndex["embedding_model" := Str(c.embeddingModel.value)]
      else withIndex
  }

  /** The formatted elements of a vector, in order. */
  function Formatted(v: seq<Double>, fmt: Double -> string): seq<string>
  {
    seq(|v|, i requires 0 <= i < |v| => fmt(v[i]))
  }

  /** toVectorLiteral: "[" + the formatted elements joined by "," + "]". */
  function ToVectorLiteral(v: seq<Double>, fmt: Double -> string): string
  {
    "[" + Join(Formatted(v, fmt), ',') + "]"
  }

  /** The row store(c) writes. */
  function RowOf(c: EmbeddedChunk, fmt: Double -> string): Row
  {
    Row(c.source, c.content, Enrich(c), ToVectorLiteral(c.embedding, fmt))
  }

  /** The table after upserting the chunks one after another. */
  function WriteAll(t: Table, cs: seq<EmbeddedChunk>, fmt: Double -> string): Table
  {
    if |cs| == 0 then t
    else WriteAll(t, cs[..|cs| - 1], fmt)[cs[|cs| - 1].id := RowOf(cs[|cs| - 1], fmt)]
  }

  /** The index of the first chunk the database refuses, |cs| when none is. */
  function FirstRejected(cs: seq<EmbeddedChunk>, accepts: Accepts): (k: nat)
    ensures k <= |cs|
  {
    if |cs| == 0 || !accepts(cs[0]) then 0 else 1 + FirstRejected(cs[1..], accepts)
  }

  /** Every chunk before the first refused one is taken, and the one at it
      (if any) is refused. */
  lemma {:induction false} FirstRejectedIsFirst(cs: seq<EmbeddedChunk>, accepts: Accepts)
    ensures forall j :: 0 <= j < FirstRejected(cs, accepts) ==> accepts(cs[j])
    ensures FirstRejected(cs, accepts) < |cs| ==> !accepts(cs[FirstRejected(cs, accepts)])
  {
    if |cs| > 0 && accepts(cs[0]) {
      FirstRejectedIsFirst(cs[1..], accepts);
      forall j | 0 <= j < FirstRejected(cs, accepts)
        ensures accepts(cs[j])
      {
        if j > 0 {
          assert cs[j] == cs[1..][j - 1];
        }
      }
    }
  }

  /** storeBatch's answer: the ids in input order, or the error for the
      first refused chunk, wrapped once more on the sub-batched path. */
  function StoreBatchResult(chunks: seq<EmbeddedChunk>, accepts: Accepts): Result<seq<Uuid>, StorageError>
  {
    var k := FirstRejected(chunks, accepts);
    if k == |chunks| then Ok(Ids(chunks))
    else Err(BatchFailed(
      if |chunks| <= StoreBatchSize then ChunkFailed(chunks[k].id)
      else SubBatchFailed(ChunkFailed(chunks[k].id))))
  }

  /** The batch size of PostgresVectorStorage. */
  const StoreBatchSize := 20

  class PostgresVectorStorage {
    var table: Table
    const fmt: Double -> string
    const batchSize: nat := StoreBatchSize

    constructor (table: Table, fmt: Double -> string)
      ensures this.table == table && this.fmt == fmt
    {
      this.table := table;
      this.fmt := fmt;
    }

    /** store: upsert the chunk's row and return its id; a refused write
        leaves the table as it was. */
    method Store(c: EmbeddedChunk, accepts: Accepts) returns (r: Result<Uuid, StorageError>)
      modifies this
      ensures accepts(c) ==> r == Ok(c.id) && table == old(table)[c.id := RowOf(c, fmt)]
      ensures !accepts(c) ==> r == Err(ChunkFailed(c.id)) && table == old(table)
    {
      var enhancedMetadata := Enrich(c);
      var vectorLiteral := ToVectorLiteral(c.embedding, fmt);
      if !accepts(c) {
        return Err(ChunkFailed(c.id));
      }
      table := table[c.id := Row(c.source, c.content, enhancedMetadata, vectorLiteral)];
      r := Ok(c.id);
    }

    /** storeBatch: up to batchSize chunks in one sequential pass, more in
        sub-batches; any failure is wrapped once more. */
    method StoreBatch(chunks: seq<EmbeddedChunk>, accepts: Accepts) returns (r: Result<seq<Uuid>, StorageError>)
      modifies this
      ensures table == WriteAll(old(table), chunks[..FirstRejected(chunks, accepts)], fmt)
      ensures r == StoreBatchResult(chunks, accepts)
    {
      var inner;
      if |chunks| <= batchSize {
        inner := StoreBatchSequential(chunks, accepts);
      } else {
        inner := StoreBatchParallel(chunks, accepts);
      }
      if inner.Err? {
        return Err(BatchFailed(inner.error));
      }
      r := inner;
    }

    /** storeBatchSequential: store each chunk in order, collecting the ids;
        the first failure ends the pass. */
    method StoreBatchSequential(chunks: seq<EmbeddedChunk>, accepts: Accepts) returns (r: Result<seq<Uuid>, StorageError>)
      modifies this
      ensures var k := FirstRejected(chunks, accepts);
        table == WriteAll(old(table), chunks[..k], fmt) &&
        r == if k == |chunks| then Ok(Ids(chunks)) else Err(ChunkFailed(chunks[k].id))
    {
      var ids: seq<Uuid> := [];
      var i := 0;
      while i < |chunks|
        invariant 0 <= i <= |chunks|
        invariant forall j :: 0 <= j < i ==> accepts(chunks[j])
        invariant table == WriteAll(old(table), chunks[..i], fmt)
        invariant ids == Ids(chunks[..i])
      {
        var stored := Store(chunks[i], accepts);
        if stored.Err? {
          FirstRejectedAt(chunks, accepts, i);
          return Err(stored.error);
        }
        assert chunks[..i + 1][..i] == chunks[..i];
        ids := ids + [chunks[i].id];
        i := i + 1;
      }
      assert chunks[..i] == chunks;
      FirstRejectedAt(chunks, accepts, i);
      r := Ok(ids);
    }

    /** storeBatchParallel: sub-batches of 20 (10 beyond 1000 chunks), each
        stored by a sequential pass, strictly one after another. */
    method StoreBatchParallel(chunks: seq<EmbeddedChunk>, accepts: Accepts) returns (r: Result<seq<Uuid>, StorageError>)
      modifies this
      ensures var k := FirstRejected(chunks, accepts);
        table == WriteAll(old(table), chunks[..k], fmt) &&
        r == if k == |chunks| then Ok(Ids(chunks)) else Err(SubBatchFailed(ChunkFailed(chunks[k].id)))
    {
      var effectiveBatchSize := if |chunks| > 1000 then Min(batchSize, 10) else batchSize;
      var allIds: seq<Uuid> := [];
      var i := 0;
      ghost var t0 := table;
      while i < |chunks|
        invariant 0 <= i <= |chunks|
        invariant forall j :: 0 <= j < i ==> accepts(chunks[j])
        invariant table == WriteAll(t0, chunks[..i], fmt)
        invariant allIds == Ids(chunks[..i])
        decreases |chunks| - i
      {
        var end := Min(i + effectiveBatchSize, |chunks|);
        var batch := chunks[i..end];
        var batchIds := StoreBatchSequential(batch, accepts);
        if batchIds.Err? {
          SubBatchRefused(t0, chunks, accepts, fmt, i, end);
          return Err(SubBatchFailed(batchIds.error));
        }
        SubBatchTaken(t0, chunks, accepts, fmt, i, end);
        allIds := allIds + batchIds.value;
        i := end;
      }
      assert chunks[..i] == chunks;
      FirstRejectedAt(chunks, accepts, i);
      r := Ok(allIds);
    }
  }

  /** The first refused index is the one before which every chunk is taken
      and at which a chunk is refused. */
  lemma FirstRejectedAt(cs: seq<EmbeddedChunk>, accepts: Accepts, k: nat)
    requires k <= |cs| && (k < |cs| ==> !accepts(cs[k]))
    requires forall j :: 0 <= j < k ==> accepts(cs[j])
    ensures FirstRejected(cs, accepts) == k
  {
    FirstRejectedIsFirst(cs, accepts);
  }

  /** A refusal inside the sub-batch chunks[i..end], after a prefix that
      was all taken, is the first refusal of the whole list, and the writes
      so far are those of one pass over the whole list. */
  lemma SubBatchRefused(t: Table, chunks: seq<EmbeddedChunk>, accepts: Accepts, fmt: Double -> string, i: nat, end: nat)
    requires i <= end <= |chunks|
    requires forall j :: 0 <= j < i ==> accepts(chunks[j])
    requires FirstRejected(chunks[i..end], accepts) < end - i
    ensures var j := FirstRejected(chunks[i..end], accepts);
      var k := FirstRejected(chunks, accepts);
      k == i + j && chunks[i..end][j] == chunks[k] &&
      WriteAll(WriteAll(t, chunks[..i], fmt), chunks[i..end][..j], fmt) == WriteAll(t, chunks[..k], fmt)
  {
    var batch := chunks[i..end];
    var j := FirstRejected(batch, accepts);
    FirstRejectedIsFirst(batch, accepts);
    assert batch[j] == chunks[i + j];
    forall l | 0 <= l < i + j
      ensures accepts(chunks[l])
    {
      if l >= i {
        assert chunks[l] == batch[l - i];
      }
    }
    FirstRejectedAt(chunks, accepts, i + j);
    WriteAllAppend(t, chunks[..i], batch[..j], fmt);
    PrefixThroughSlice(chunks, i, end, j);
  }

  /** When all of the sub-batch chunks[i..end] is taken, so is all of
      chunks[..end], and the writes and ids so far are those of chunks[..end]. */
  lemma SubBatchTaken(t: Table, chunks: seq<EmbeddedChunk>, accepts: Accepts, fmt: Double -> string, i: nat, end: nat)
    requires i <= end <= |chunks|
    requires forall j :: 0 <= j < i ==> accepts(chunks[j])
    requires FirstRejected(chunks[i..end], accepts) == end - i
    ensures forall l :: 0 <= l < end ==> accepts(chunks[l])
    ensures WriteAll(WriteAll(t, chunks[..i], fmt), chunks[i..end][..end - i], fmt) == WriteAll(t, chunks[..end], fmt)
    ensures Ids(chunks[..i]) + Ids(chunks[i..end]) == Ids(chunks[..end])
  {
    var batch := chunks[i..end];
    FirstRejectedIsFirst(batch, accepts);
    forall l | i <= l < end
      ensures accepts(chunks[l])
    {
      assert chunks[l] == batch[l - i];
    }
    IdsAppend(chunks[..i], batch);
    assert batch[..end - i] == batch;
    PrefixThroughSlice(chunks, i, end, end - i);
    WriteAllAppend(t, chunks[..i], batch, fmt);
  }

  /** Ids distribute over concatenation. */
  lemma IdsAppend(a: seq<EmbeddedChunk>, b: seq<EmbeddedChunk>)
    ensures Ids(a + b) == Ids(a) + Ids(b)
  {
  }

  /** Upserting a then b is upserting a + b. */
  lemma {:induction false} WriteAllAppend(t: Table, a: seq<EmbeddedChunk>, b: seq<EmbeddedChunk>, fmt: Double -> string)
    ensures WriteAll(WriteAll(t, a, fmt), b, fmt) == WriteAll(t, a + b, fmt)
  {
    if |b| == 0 {
      assert a + b == a;
    } else {
      WriteAllAppend(t, a, b[..|b| - 1], fmt);
      assert (a + b)[..|a + b| - 1] == a + b[..|b| - 1];
    }
  }

  // ---------------------------------------------------------------------
  // Properties

  /** The enhanced metadata is the chunk's metadata with document_id (only
      when the chunk has a document id, as its text), chunk_index and
      embedding_model (only when the chunk has a model) put over it; every
      other caller key keeps its value. */
  lemma EnrichedMetadata(c: EmbeddedChunk)
    ensures var m := Enrich(c);
      m.Keys == c.metadata.Keys + {"chunk_index"} +
        (if c.documentId.Some? then {"document_id"} else {}) +
        (if c.embeddingModel.Some? then {"embedding_model"} else {}) &&
      m["chunk_index"] == Int(c.chunkIndex) &&
      (c.documentId.Some? ==> m["document_id"] == IdText(c.documentId.value)) &&
      (c.embeddingModel.Some? ==> m["embedding_model"] == Str(c.embeddingModel.value)) &&
      forall key :: key in c.metadata && key != "chunk_index" &&
        (key == "document_id" ==> c.documentId.None?) &&
        (key == "embedding_model" ==> c.embeddingModel.None?)
        ==> m[key] == c.metadata[key]
  {
  }

  /** An empty vector is written as "[]". */
  lemma EmptyVectorLiteral(fmt: Double -> string)
    ensures ToVectorLiteral([], fmt) == "[]"
  {
  }

  /** When no formatted number contains a comma (true of %.6f under
      Locale.US), an n-element literal holds n - 1 commas, and cutting the
      brackets and splitting at the commas gives back the formatted elements. */
  lemma VectorLiteralParses(v: seq<Double>, fmt: Double -> string)
    requires |v| > 0
    requires forall d :: ',' !in fmt(d)
    ensures var lit := ToVectorLiteral(v, fmt);
      |lit| >= 2 && lit[0] == '[' && lit[|lit| - 1] == ']' &&
      multiset(lit)[','] == |v| - 1 &&
      Split(lit[1..|lit| - 1], ',') == Formatted(v, fmt)
  {
    var parts := Formatted(v, fmt);
    var lit := ToVectorLiteral(v, fmt);
    JoinSeparatorCount(parts, ',');
    SplitJoin(parts, ',');
    assert lit[1..|lit| - 1] == Join(parts, ',');
    assert multiset(lit) == multiset("[") + multiset(Join(parts, ',')) + multiset("]");
  }

  /** The ids the chunks carry. */
  function IdSet(cs: seq<EmbeddedChunk>): set<Uuid>
  {
    set j | 0 <= j < |cs| :: cs[j].id
  }

  /** After upserting a sequence of chunks, exactly the ids that were there
      before and the ids of the chunks have a row. */
  lemma {:induction false} WriteAllKeys(t: Table, cs: seq<EmbeddedChunk>, fmt: Double -> string)
    ensures WriteAll(t, cs, fmt).Keys == t.Keys + IdSet(cs)
  {
    if |cs| > 0 {
      var init := cs[..|cs| - 1];
      WriteAllKeys(t, init, fmt);
      assert IdSet(cs) == IdSet(init) + {cs[|cs| - 1].id} by {
        forall x | x in IdSet(cs)
          ensures x in IdSet(init) + {cs[|cs| - 1].id}
        {
          var j :| 0 <= j < |cs| && cs[j].id == x;
          if j < |cs| - 1 {
            assert init[j].id == x;
          }
        }
      }
    }
  }

  /** The row of an id is the one built from the last chunk carrying it:
      the last writer wins. */
  lemma {:induction false} WriteAllLastWriter(t: Table, cs: seq<EmbeddedChunk>, fmt: Double -> string, j: nat)
    requires j < |cs|
    requires forall l :: j < l < |cs| ==> cs[l].id != cs[j].id
    ensures cs[j].id in WriteAll(t, cs, fmt) && WriteAll(t, cs, fmt)[cs[j].id] == RowOf(cs[j], fmt)
  {
    if j < |cs| - 1 {
      var init := cs[..|cs| - 1];
      WriteAllLastWriter(t, init, fmt, j);
    }
  }

  /** The rows of ids no chunk carries are unchanged. */
  lemma {:induction false} WriteAllKeepsOthers(t: Table, cs: seq<EmbeddedChunk>, fmt: Double -> string, id: Uuid)
    requires forall j :: 0 <= j < |cs| ==> cs[j].id != id
    ensures id in WriteAll(t, cs, fmt) <==> id in t
    ensures id in t ==> WriteAll(t, cs, fmt)[id] == t[id]
  {
    if |cs| > 0 {
      WriteAllKeepsOthers(t, cs[..|cs| - 1], fmt, id);
    }
  }

  /** Storing two chunks with the same id leaves one row for it, holding the
      second write. */
  lemma UpsertLastWriterWins(t: Table, c1: EmbeddedChunk, c2: EmbeddedChunk, fmt: Double -> string)
    requires c1.id == c2.id
    ensures WriteAll(t, [c1, c2], fmt) == t[c2.id := RowOf(c2, fmt)]
  {
    assert [c1, c2][..1] == [c1];
    assert [c1][..0] == [];
    assert WriteAll(t, [c1], fmt) == t[c1.id := RowOf(c1, fmt)];
  }
}

/** DataIngestionPipeline: a document goes through four stages in order,
    text extraction, chunking, embedding and storage, and the first stage
    that fails decides the outcome; the stages after it do not run. The
    executors are modelled as running the stages one after another. */
module Pipeline {
  import opened Common
  import opened Batching
  import opened Chunker
  import opened EmbeddingService
  import opened VectorStorage
  import TxtExtractor
  import opened ExtractorFactory

  /** Why extractText failed. */
  datatype ExtractCause =
    | NoExtractor(contentType: string)                        // no registered extractor supports the type
    | ExtractionFailed(cause: TxtExtractor.ExtractionError)   // the extractor threw

  /** The failure a processed document ends with, one per stage. */
  datatype PipelineError =
    | ExtractFailed(why: ExtractCause)     // "Failed to extract text"
    | ChunkingFailed                       // the chunker was handed the null an extractor returned
    | EmbeddingFailed(embedError: EmbedError)   // "Embedding generation failed"
    | StorageFailed(storageError: StorageError)   // the storage future failed

  /** The size of the slices the embedding stage hands to embedBatch. */
  const EmbedSliceSize: nat := 50

  const DefaultPoolSize: nat := 5

  /** The embedding stage's outcome and the argument of each embedBatch call
      it made, in order. */
  datatype EmbedRun = EmbedRun(result: Result<seq<EmbeddedChunk>, EmbedError>, batches: seq<seq<TextChunk>>)

  /** `run` carried on after slices that produced `out` and were passed in
      the calls `done`. */
  function Resume(out: seq<EmbeddedChunk>, done: seq<seq<TextChunk>>, run: EmbedRun): EmbedRun
  {
    EmbedRun(if run.result.Err? then run.result else Ok(out + run.result.value), done + run.batches)
  }

  /** One embedBatch call: a slice to its embedded chunks or the error. */
  type BatchCall = seq<TextChunk> -> Result<seq<EmbeddedChunk>, EmbedError>

  /** The service's embedBatch with sub-batch size `size`. */
  function EmbedBatchCall(size: nat, backend: Backend, model: string): BatchCall
    requires size > 0
  {
    b => EmbedBatchSpec(b, size, backend, model)
  }

  /** The loop for more than 50 chunks: `embed` on each slice in turn,
      concatenating the results and stopping at the first failure. */
  function EmbedInTurn(slices: seq<seq<TextChunk>>, embed: BatchCall): EmbedRun
  {
    if |slices| == 0 then EmbedRun(Ok([]), [])
    else match embed(slices[0])
      case Err(e) => EmbedRun(Err(e), [slices[0]])
      case Ok(v) => Resume(v, [slices[0]], EmbedInTurn(slices[1..], embed))
  }

  /** generateEmbeddingsAsync with the service's sub-batch size `size`. */
  function GenerateSpec(chunks: seq<TextChunk>, size: nat, backend: Backend, model: string): EmbedRun
    requires size > 0
  {
    if |chunks| == 0 then EmbedRun(Ok([]), [])
    else if |chunks| <= EmbedSliceSize then EmbedRun(EmbedBatchSpec(chunks, size, backend, model), [chunks])
    else EmbedInTurn(Slices(chunks, EmbedSliceSize), EmbedBatchCall(size, backend, model))
  }

  /** storeEmbeddingsAsync's answer. */
  function StoreSpec(chunks: seq<EmbeddedChunk>, accepts: Accepts): Result<seq<Uuid>, PipelineError>
  {
    if |chunks| == 0 then Ok([])
    else match StoreBatchResult(chunks, accepts)
      case Ok(ids) => Ok(ids)
      case Err(e) => Err(StorageFailed(e))
  }

  class DataIngestionPipeline {
    const factory: TextExtractorFactory
    const chunker: FixedSizeTextChunker
    const embedder: AnthropicEmbeddingService
    const storage: PostgresVectorStorage
    const poolSize: nat

    constructor (factory: TextExtractorFactory, chunker: FixedSizeTextChunker,
                 embedder: AnthropicEmbeddingService, storage: PostgresVectorStorage, threadPoolSize: int)
      ensures this.factory == factory && this.chunker == chunker
      ensures this.embedder == embedder && this.storage == storage
      ensures poolSize == if threadPoolSize > 0 then threadPoolSize else DefaultPoolSize
    {
      this.factory := factory;
      this.chunker := chunker;
      this.embedder := embedder;
      this.storage := storage;
      this.poolSize := if threadPoolSize > 0 then threadPoolSize else DefaultPoolSize;
    }

    /** The chunker's window is well formed and the service's sub-batches
        are not empty. */
    predicate Configured()
    {
      0 <= chunker.defaultOverlapSize < chunker.defaultChunkSize && embedder.batchSize > 0
    }

    /** extractText: the factory's extractor for the content type, or the
        failure when there is none or when it throws. */
    function ExtractText(doc: Document): (r: Result<Option<ExtractedContent>, ExtractCause>)
      ensures r == Err(NoExtractor(doc.contentType)) <==> factory.GetExtractor(doc.contentType).None?
      ensures r == Err(ExtractionFailed(TxtExtractor.ReadFailed)) <==>
        factory.GetExtractor(doc.contentType) == Some(Txt) && doc.body.None?
      ensures r.Ok? && r.value.Some? <==> factory.GetExtractor(doc.contentType) == Some(Txt) && doc.body.Some?
      ensures r.Ok? && r.value.Some? ==> TxtExtractor.Extract(doc) == Ok(r.value.value)
    {
      match factory.GetExtractor(doc.contentType)
      case None => Err(NoExtractor(doc.contentType))
      case Some(e) =>
        match Extract(e, doc)
        case Err(err) => Err(ExtractionFailed(err))
        case Ok(c) => Ok(c)
    }

    /** chunkTextAsync: the chunker's windows of the extracted content; a
        null content makes the chunker throw. */
    method ChunkText(content: Option<ExtractedContent>, newId: nat -> Uuid) returns (r: Result<seq<TextChunk>, PipelineError>)
      requires Configured()
      ensures content.None? ==> r == Err(ChunkingFailed)
      ensures content.Some? ==>
        r == Ok(ChunkSpec(content.value, chunker.defaultChunkSize, chunker.defaultOverlapSize, newId))
    {
      if content.None? {
        return Err(ChunkingFailed);
      }
      var chunks := chunker.Chunk(content.value, newId);
      r := Ok(chunks);
    }

    /** generateEmbeddingsAsync: nothing for no chunks, one embedBatch call
        for at most 50, otherwise one call per slice of 50 in order until one
        fails. `batches` lists the argument of each embedBatch call. */
    method GenerateEmbeddings(chunks: seq<TextChunk>, backend: Backend)
      returns (r: Result<seq<EmbeddedChunk>, PipelineError>, batches: seq<seq<TextChunk>>)
      requires Configured()
      ensures var g := GenerateSpec(chunks, embedder.batchSize, backend, embedder.modelName);
        batches == g.batches &&
        r == if g.result.Err? then Err(EmbeddingFailed(g.result.error)) else Ok(g.result.value)
    {
      if |chunks| == 0 {
        return Ok([]), [];
      }
      if |chunks| <= EmbedSliceSize {
        var res, _ := embedder.EmbedBatch(chunks, backend);
        batches := [chunks];
        r := if res.Err? then Err(EmbeddingFailed(res.error)) else Ok(res.value);
        return;
      }
      ghost var embed := EmbedBatchCall(embedder.batchSize, backend, embedder.modelName);
      ghost var whole := EmbedInTurn(Slices(chunks, EmbedSliceSize), embed);
      var results: seq<EmbeddedChunk> := [];
      batches := [];
      var i := 0;
      assert chunks[i..] == chunks;
      ResumeNothing(whole);
      while i < |chunks|
        invariant 0 <= i <= |chunks|
        invariant whole == Resume(results, batches,
          EmbedInTurn(Slices(chunks[i..], EmbedSliceSize), embed))
        decreases |chunks| - i
      {
        var end := Min(i + EmbedSliceSize, |chunks|);
        var batch := chunks[i..end];
        SlicesStep(chunks, EmbedSliceSize, i);
        ghost var rest := Slices(chunks[end..], EmbedSliceSize);
        assert ([batch] + rest)[0] == batch && ([batch] + rest)[1..] == rest;
        var res, _ := embedder.EmbedBatch(batch, backend);
        if res.Err? {
          assert whole == Resume(results, batches, EmbedRun(Err(res.error), [batch]));
          batches := batches + [batch];
          return Err(EmbeddingFailed(res.error)), batches;
        }
        ResumeTwice(results, batches, res.value, [batch], EmbedInTurn(rest, embed));
        results := results + res.value;
        batches := batches + [batch];
        i := end;
      }
      assert chunks[i..] == [];
      assert results + [] == results && batches + [] == batches;
      r := Ok(results);
    }

    /** storeEmbeddingsAsync: nothing to do for no chunks, otherwise the
        storage's storeBatch. */
    method StoreEmbeddings(chunks: seq<EmbeddedChunk>, accepts: Accepts) returns (r: Result<seq<Uuid>, PipelineError>)
      modifies storage
      ensures storage.table == WriteAll(old(storage.table), chunks[..FirstRejected(chunks, accepts)], storage.fmt)
      ensures r == StoreSpec(chunks, accepts)
    {
      if |chunks| == 0 {
        return Ok([]);
      }
      var res := storage.StoreBatch(chunks, accepts);
      r := if res.Err? then Err(StorageFailed(res.error)) else Ok(res.value);
    }

    /** What the first three stages make of a document. */
    function Prepared(doc: Document, newId: nat -> Uuid, backend: Backend): Result<seq<EmbeddedChunk>, PipelineError>
      requires Configured()
    {
      match ExtractText(doc)
      case Err(e) => Err(ExtractFailed(e))
      case Ok(None) => Err(ChunkingFailed)
      case Ok(Some(c)) =>
        var chunks := ChunkSpec(c, chunker.defaultChunkSize, chunker.defaultOverlapSize, newId);
        var g := GenerateSpec(chunks, embedder.batchSize, backend, embedder.modelName).result;
        if g.Err? then Err(EmbeddingFailed(g.error)) else Ok(g.value)
    }

    /** processDataAsync: extract, chunk, embed, store. A failure before the
        storage stage leaves the table as it was. */
    method ProcessData(doc: Document, newId: nat -> Uuid, backend: Backend, accepts: Accepts)
      returns (r: Result<seq<Uuid>, PipelineError>)
      requires Configured()
      modifies storage
      ensures var p := Prepared(doc, newId, backend);
        p.Err? ==> r == Err(p.error) && storage.table == old(storage.table)
      ensures var p := Prepared(doc, newId, backend);
        p.Ok? ==>
          r == StoreSpec(p.value, accepts) &&
          storage.table == WriteAll(old(storage.table), p.value[..FirstRejected(p.value, accepts)], storage.fmt)
    {
      var extracted := ExtractText(doc);
      if extracted.Err? {
        return Err(ExtractFailed(extracted.error));
      }
      var chunks := ChunkText(extracted.value, newId);
      if chunks.Err? {
        return Err(chunks.error);
      }
      var embedded, _ := GenerateEmbeddings(chunks.value, backend);
      if embedded.Err? {
        return Err(embedded.error);
      }
      r := StoreEmbeddings(embedded.value, accepts);
    }
  }

  // ---------------------------------------------------------------------
  // Properties

  /** Carrying on after nothing changes nothing. */
  lemma ResumeNothing(run: EmbedRun)
    ensures Resume([], [], run) == run
  {
    assert [] + run.batches == run.batches;
    if run.result.Ok? {
      assert [] + run.result.value == run.result.value;
    }
  }

  /** Carrying on twice is carrying on once after both. */
  lemma ResumeTwice(out: seq<EmbeddedChunk>, done: seq<seq<TextChunk>>, v: seq<EmbeddedChunk>,
                    b: seq<seq<TextChunk>>, run: EmbedRun)
    ensures Resume(out, done, Resume(v, b, run)) == Resume(out + v, done + b, run)
  {
    assert done + (b + run.batches) == (done + b) + run.batches;
    if run.result.Ok? {
      assert out + (v + run.result.value) == (out + v) + run.result.value;
    }
  }

  /** The slice loop calls `embed` on a prefix of the slices, and on all
      of them when it succeeds. */
  lemma {:induction false} EmbedInTurnPrefix(slices: seq<seq<TextChunk>>, embed: BatchCall)
    ensures var run := EmbedInTurn(slices, embed);
      |run.batches| <= |slices| && run.batches == slices[..|run.batches|] &&
      (run.result.Ok? ==> run.batches == slices)
  {
    if |slices| > 0 && embed(slices[0]).Ok? {
      var tail := slices[1..];
      EmbedInTurnPrefix(tail, embed);
      var n := |EmbedInTurn(tail, embed).batches|;
      assert [slices[0]] + tail[..n] == slices[..n + 1];
      assert [slices[0]] + tail == slices;
    }
  }

  /** Every call of the slice loop but the last succeeded; the loop fails
      exactly with the error of its last call and succeeds only when every
      call did. */
  lemma {:induction false} EmbedInTurnStops(slices: seq<seq<TextChunk>>, embed: BatchCall)
    ensures var run := EmbedInTurn(slices, embed);
      var n := |run.batches|;
      (forall k :: 0 <= k < n - 1 ==> embed(run.batches[k]).Ok?) &&
      (run.result.Err? ==> n > 0 && embed(run.batches[n - 1]) == Err(run.result.error)) &&
      (run.result.Ok? ==> forall k :: 0 <= k < n ==> embed(run.batches[k]).Ok?)
  {
    if |slices| > 0 && embed(slices[0]).Ok? {
      var rest := EmbedInTurn(slices[1..], embed);
      EmbedInTurnStops(slices[1..], embed);
      var bs := [slices[0]] + rest.batches;
      forall k | 0 < k < |bs|
        ensures bs[k] == rest.batches[k - 1]
      {
      }
    }
  }

  /** When each call that succeeds keeps its slice's chunks in order, a
      successful slice loop gives one embedded chunk per chunk of the slices,
      in order, keeping its fields. */
  lemma {:induction false} EmbedInTurnCorresponds(slices: seq<seq<TextChunk>>, embed: BatchCall, model: string)
    requires forall b :: embed(b).Ok? ==> AllCorrespond(b, embed(b).value, model)
    ensures var run := EmbedInTurn(slices, embed);
      run.result.Ok? ==> AllCorrespond(Flatten(slices), run.result.value, model)
  {
    if |slices| > 0 && embed(slices[0]).Ok? {
      EmbedInTurnCorresponds(slices[1..], embed, model);
      var rest := EmbedInTurn(slices[1..], embed);
      if rest.result.Ok? {
        AllCorrespondConcat(slices[0], Flatten(slices[1..]), embed(slices[0]).value, rest.result.value, model);
      }
    }
  }

  /** The embedding stage: no call for no chunks; otherwise the calls take
      consecutive non-empty slices of at most 50 chunks from the front of
      the list; on success they cover the list and output i keeps input
      i's fields; on failure the error is that of the last call. */
  lemma GenerateOutcome(chunks: seq<TextChunk>, size: nat, backend: Backend, model: string)
    requires size > 0
    ensures var g := GenerateSpec(chunks, size, backend, model);
      (|chunks| == 0 <==> g.batches == []) &&
      (forall k :: 0 <= k < |g.batches| ==> 0 < |g.batches[k]| <= EmbedSliceSize) &&
      (g.result.Ok? ==> Flatten(g.batches) == chunks && AllCorrespond(chunks, g.result.value, model)) &&
      (g.result.Err? ==>
        |g.batches| > 0 && EmbedBatchSpec(g.batches[|g.batches| - 1], size, backend, model) == Err(g.result.error))
  {
    var g := GenerateSpec(chunks, size, backend, model);
    if 0 < |chunks| <= EmbedSliceSize {
      EmbedBatchOutcome(chunks, size, backend, model);
      assert Flatten([chunks]) == chunks + Flatten([chunks][1..]);
    } else if |chunks| > EmbedSliceSize {
      var slices := Slices(chunks, EmbedSliceSize);
      SlicesPartition(chunks, EmbedSliceSize);
      var embed := EmbedBatchCall(size, backend, model);
      forall b | embed(b).Ok?
        ensures AllCorrespond(b, embed(b).value, model)
      {
        EmbedBatchOutcome(b, size, backend, model);
      }
      EmbedInTurnPrefix(slices, embed);
      EmbedInTurnStops(slices, embed);
      EmbedInTurnCorresponds(slices, embed, model);
      assert |slices| > 0 by {
        assert slices == [chunks[..EmbedSliceSize]] + Slices(chunks[EmbedSliceSize..], EmbedSliceSize);
      }
    }
  }

  /** A document no extractor yields text for ends before the embedding
      stage: the outcome does not depend on the backend or the ids. */
  lemma NothingExtractedStops(p: DataIngestionPipeline, doc: Document,
                              newId1: nat -> Uuid, newId2: nat -> Uuid, backend1: Backend, backend2: Backend)
    requires p.Configured()
    requires !(p.ExtractText(doc).Ok? && p.ExtractText(doc).value.Some?)
    ensures p.Prepared(doc, newId1, backend1) == p.Prepared(doc, newId2, backend2)
    ensures p.Prepared(doc, newId1, backend1).Err?
    ensures p.factory.GetExtractor(doc.contentType).None? ==>
      p.Prepared(doc, newId1, backend1) == Err(ExtractFailed(NoExtractor(doc.contentType)))
  {
  }

  /** End to end: when a document is processed without error, the ids
      returned are those given to the chunks of its text, in chunk order,
      and the table holds a row for each of them. */
  lemma ProcessedIds(p: DataIngestionPipeline, doc: Document, newId: nat -> Uuid, backend: Backend, accepts: Accepts)
    requires p.Configured()
    ensures var pr := p.Prepared(doc, newId, backend);
      pr.Ok? && StoreSpec(pr.value, accepts).Ok? ==>
        var c := p.ExtractText(doc).value.value;
        var n := |ChunkSpec(c, p.chunker.defaultChunkSize, p.chunker.defaultOverlapSize, newId)|;
        var ids := StoreSpec(pr.value, accepts).value;
        |ids| == n && (forall k :: 0 <= k < n ==> ids[k] == newId(k)) &&
        FirstRejected(pr.value, accepts) == |pr.value| &&
        (forall k :: 0 <= k < n ==> pr.value[k].chunkIndex == k)
  {
    var pr := p.Prepared(doc, newId, backend);
    if pr.Ok? && StoreSpec(pr.value, accepts).Ok? {
      var c := p.ExtractText(doc).value.value;
      var size, overlap := p.chunker.defaultChunkSize, p.chunker.defaultOverlapSize;
      var chunks := ChunkSpec(c, size, overlap, newId);
      var n := |chunks|;
      GenerateOutcome(chunks, p.embedder.batchSize, backend, p.embedder.modelName);
      FirstRejectedIsFirst(pr.value, accepts);
      forall k | 0 <= k < n
        ensures pr.value[k].id == newId(k) && pr.value[k].chunkIndex == k
      {
        ChunkAt(c, size, overlap, newId, k);
        CreateChunkFields(c, Window(c.content, size, size - overlap, k), k, newId(k));
      }
      if n > 0 {
        assert StoreSpec(pr.value, accepts).value == Ids(pr.value);
      }
    }
  }
}

# RAG chat service: the ingestion path and its gates, in Dafny

This project models the core of a Spring-based retrieval-augmented chat
service:

- **The document-ingestion pipeline**:
  - text extraction through a first-match extractor factory;
  - fixed-width, overlapping chunking;
  - batched embedding through an embedding backend;
  - upserting the embedded chunks into a vector table.
- **The embedding DTOs**: the request builders, and the converter that
  normalises the server's loosely typed `data` field.
- **The two fixed-window rate limiters** and the two request filters in
  front of the API:
  - `RateLimitFilter`, which answers 429 or adds the X-RateLimit headers;
  - `ApiKeyFilter`, which answers 401 unless the `x-api-key` header is a
    configured key.
- **The chat-session service**: title normalisation and soft deletion.

## How the model is built

- **Functional code becomes functions and lemmas.** The extractor factory,
  the converter's spec, the filters' decisions and the pipeline's stage
  composition are functions over datatypes. Lemmas state what the source
  promises about them.
- **Loops become methods with invariants.** These methods are proved equal to a specification function, and the properties are then proved about those functions:
  - the chunker's window loop (`ChunkSpec`);
  - the embedder's sub-batch and per-vector loops (`EmbedBatchSpec`, `EmbedChunksSpec`);
  - the store's sequential and sub-batch loops (`WriteAll`/`StoreBatchResult`);
  - the pipeline's slice loop (`GenerateSpec`);
  - the API-key constructor's loop (`KeysOf`);
  - the converter's loop (`Converted`). The converter holds no state, so this is a module-level method.
- **The source's components are classes.**
  - The chunker, the embedder and the extractor factory have only `const` fields, so their methods have no `modifies` clause. The same holds for the API-key filter, whose key set is filled by its constructor.
  - `modifies` clauses appear only where the source changes state: the vector store's table (`Store`, `StoreBatch*`), the pipeline's storage stages, both rate limiters and their per-key usage records, `RateLimitFilter.DoFilter`, and the session service's repository.
  - These methods state their new state through `Admit`/`Remaining`/`ResetTime`, `Decide` and `Find`/`Updated`/`Deleted`.
- **Outside effects are parameters.** These are:
  - the clock, as `now`;
  - fresh UUIDs, as `newId`;
  - the embedding backend, a function that may fail;
  - the `%.6f` number formatter;
  - whether the database takes a write, as `accepts`.
- **Exceptions are `Result` values** carrying the error of the stage that
  failed.

Where the project's written description and its code differ, the model
follows the code:
- the chunker neither clamps nor validates its sizes, so
  `0 <= overlapSize < chunkSize` is a precondition;
- an empty text gives one empty chunk, not an empty list.

## Model

Source paths are relative to the repository root.

| member | source | states |
|---|---|---|
| Chunker.FixedSizeTextChunker.constructor | src/main/java/com/example/chat/ingestion/chunking/FixedSizeTextChunker.java:21-25 | the chunker keeps the configured chunk and overlap sizes |
| Chunker.FixedSizeTextChunker.Chunk | src/main/java/com/example/chat/ingestion/chunking/FixedSizeTextChunker.java:36-39 | `chunk(document)` is the sliding window with the configured sizes |
| Chunker.FixedSizeTextChunker.ChunkWith | src/main/java/com/example/chat/ingestion/chunking/FixedSizeTextChunker.java:41-61 | the position/index loop produces exactly `ChunkSpec`: chunk k is window k, for k below the chunk count |
| Chunker.ChunkSpec | src/main/java/com/example/chat/ingestion/chunking/FixedSizeTextChunker.java:41-61 | one chunk for a text of at most chunkSize characters, otherwise ceil(len / step) chunks |
| Chunker.CreateChunkFields | src/main/java/com/example/chat/ingestion/chunking/FixedSizeTextChunker.java:63-82 | a created chunk carries the document id and filename, and its metadata has exactly document_id, chunk_index, chunk_text_length, and source_type only when the document has it |
| Chunker.ShortTextIsOneChunk | src/main/java/com/example/chat/ingestion/chunking/FixedSizeTextChunker.java:45-48 | a text no longer than chunkSize, the empty text included, gives exactly one chunk holding the whole text, with index 0 |
| Chunker.LongTextChunkCount | src/main/java/com/example/chat/ingestion/chunking/FixedSizeTextChunker.java:49-59 | a longer text gives (len + step - 1) / step chunks; the last window starts inside the text and the windows reach its end |
| Chunker.ChunkShape | src/main/java/com/example/chat/ingestion/chunking/FixedSizeTextChunker.java:50-55 | chunk k is text[k*step .. min(k*step + chunkSize, len)] with index k and id newId(k); it is at most chunkSize long, and non-empty for a long text |
| Chunker.ConsecutiveChunksOverlap | src/main/java/com/example/chat/ingestion/chunking/FixedSizeTextChunker.java:52-55 | a full chunk's last overlapSize characters are the first overlapSize characters of the next chunk, which is at least that long |
| Chunker.ChunksCoverText | src/main/java/com/example/chat/ingestion/chunking/FixedSizeTextChunker.java:51-59 | every character position of the text lies in some chunk, at the matching offset |
| Chunker.ChunkMetadata | src/main/java/com/example/chat/ingestion/chunking/FixedSizeTextChunker.java:64-80 | every chunk of a chunking belongs to the document; its metadata records the document id, its own index and length, and forwards source_type exactly when present |
| Chunker.AlphabetExample | src/main/java/com/example/chat/ingestion/chunking/FixedSizeTextChunker.java:49-59 | size 10 with overlap 3 over the 26 letters gives "abcdefghij", "hijklmnopq", "opqrstuvwx", "vwxyz" |
| Chunker.CeilDivIsDivision | src/main/java/com/example/chat/ingestion/chunking/FixedSizeTextChunker.java:51-59 | the loop's chunk count, by repeated subtraction, equals the ceiling division (a + b - 1) / b |
| Chunker.CeilDivCharacterized | src/main/java/com/example/chat/ingestion/chunking/FixedSizeTextChunker.java:51-59 | n = ceil(len / step) exactly when window n starts at or past the end and window n - 1 starts inside the text: the loop's exit condition |
| EmbeddingService.AnthropicEmbeddingService.constructor | src/main/java/com/example/chat/ingestion/embedding/AnthropicEmbeddingService.java:36-54 | the sub-batch size is the configured one when positive, else 10; the pool size is the configured one when positive, else 5 |
| EmbeddingService.AnthropicEmbeddingService.EmbedBatch | src/main/java/com/example/chat/ingestion/embedding/AnthropicEmbeddingService.java:62-91 | the slice loop's result is `EmbedBatchSpec`; the backend calls are, in order, the contents of the contiguous slices [i, min(i + size, n)) |
| EmbeddingService.AnthropicEmbeddingService.EmbedChunks | src/main/java/com/example/chat/ingestion/embedding/AnthropicEmbeddingService.java:93-121 | one backend call with the chunks' contents in order, none for an empty list; the result is `EmbedChunksSpec` |
| EmbeddingService.EmptyBatchMakesNoCall | src/main/java/com/example/chat/ingestion/embedding/AnthropicEmbeddingService.java:64-66 | an empty batch yields an empty list and makes no backend call |
| EmbeddingService.EmbedChunksOutcome | src/main/java/com/example/chat/ingestion/embedding/AnthropicEmbeddingService.java:101-118 | a sub-batch succeeds exactly when the backend answers with at least one vector per chunk; output i keeps chunk i's fields, carries vector i and the model name, and extra vectors are ignored |
| EmbeddingService.CombineFailsIffSomeFails | src/main/java/com/example/chat/ingestion/embedding/AnthropicEmbeddingService.java:85-90 | joining the sub-batch results fails exactly when some sub-batch failed (all or nothing) |
| EmbeddingService.CombineCorresponds | src/main/java/com/example/chat/ingestion/embedding/AnthropicEmbeddingService.java:85-90 | a successful join means every sub-batch succeeded, and it is exactly the concatenation of their results in submission order; when each result matches its sub-batch, the join matches the concatenated sub-batches |
| EmbeddingService.EmbedBatchOutcome | src/main/java/com/example/chat/ingestion/embedding/AnthropicEmbeddingService.java:62-121 | embedBatch fails exactly when some sub-batch fails; on success there is one output per input, output i keeps input i's fields with the service's model, and the output for element j of sub-batch k carries the j-th vector of the backend's answer for sub-batch k |
| Batching.SlicesPartition | src/main/java/com/example/chat/ingestion/embedding/AnthropicEmbeddingService.java:71-73 | the slices concatenate back to the input; each is non-empty and at most `size` long, and all but the last are exactly `size` |
| VectorStorage.PostgresVectorStorage.constructor | src/main/java/com/example/chat/ingestion/storage/PostgresVectorStorage.java:51-57 | the storage starts from the given table with the given formatter; its batch size is 20 |
| VectorStorage.PostgresVectorStorage.Store | src/main/java/com/example/chat/ingestion/storage/PostgresVectorStorage.java:76-102 | an accepted write upserts the chunk's row (enriched metadata, vector literal) under its id and returns the id; a refused one returns the error and leaves the table as it was |
| VectorStorage.PostgresVectorStorage.StoreBatch | src/main/java/com/example/chat/ingestion/storage/PostgresVectorStorage.java:104-116 | the table holds the writes of the chunks before the first refused one; the answer is the ids in input order, or that chunk's error wrapped once more |
| VectorStorage.PostgresVectorStorage.StoreBatchSequential | src/main/java/com/example/chat/ingestion/storage/PostgresVectorStorage.java:119-126 | chunks are stored in order until the first refusal; the answer is all ids in order, or the refused chunk's error |
| VectorStorage.PostgresVectorStorage.StoreBatchParallel | src/main/java/com/example/chat/ingestion/storage/PostgresVectorStorage.java:139-173 | sub-batches of 20 (10 beyond 1000 chunks) are written one after another; the table and ids are those of one pass up to the first refusal, whose error is wrapped as a sub-batch failure |
| VectorStorage.FirstRejectedIsFirst | src/main/java/com/example/chat/ingestion/storage/PostgresVectorStorage.java:121-124 | every chunk before the first refused index is accepted, and the chunk at it is refused |
| VectorStorage.SubBatchRefused | src/main/java/com/example/chat/ingestion/storage/PostgresVectorStorage.java:148-169 | a refusal inside a sub-batch, after accepted sub-batches, is the first refusal of the whole list, and the writes so far are those of the whole list up to it |
| VectorStorage.SubBatchTaken | src/main/java/com/example/chat/ingestion/storage/PostgresVectorStorage.java:148-154 | a fully accepted sub-batch extends the writes and the id list to the end of that sub-batch |
| VectorStorage.EnrichedMetadata | src/main/java/com/example/chat/ingestion/storage/PostgresVectorStorage.java:80-87 | enriched metadata adds chunk_index always, document_id (as text) only with a document id, and embedding_model only with a model, overriding those keys; every other caller key keeps its value |
| VectorStorage.EmptyVectorLiteral | src/main/java/com/example/chat/ingestion/storage/PostgresVectorStorage.java:70-74 | the empty vector is written "[]" |
| VectorStorage.VectorLiteralParses | src/main/java/com/example/chat/ingestion/storage/PostgresVectorStorage.java:70-74 | with comma-free element strings, an n-element literal is bracketed, holds n - 1 commas, and splitting its inside at commas gives back the elements in order |
| VectorStorage.WriteAllKeys | src/main/java/com/example/chat/ingestion/storage/PostgresVectorStorage.java:41-48 | after upserting chunks, exactly the old ids and the chunks' ids have rows |
| VectorStorage.WriteAllLastWriter | src/main/java/com/example/chat/ingestion/storage/PostgresVectorStorage.java:44-48 | an id's row is built from the last chunk carrying that id |
| VectorStorage.WriteAllKeepsOthers | src/main/java/com/example/chat/ingestion/storage/PostgresVectorStorage.java:90-95 | rows of ids that no chunk carries are unchanged |
| VectorStorage.UpsertLastWriterWins | src/main/java/com/example/chat/ingestion/storage/PostgresVectorStorage.java:44-48 | storing two chunks with one id leaves one row, holding the second write |
| Pipeline.DataIngestionPipeline.constructor | src/main/java/com/example/chat/ingestion/pipeline/DataIngestionPipeline.java:48-63 | the pool size is the configured one when positive, otherwise 5 |
| Pipeline.DataIngestionPipeline.ExtractText | src/main/java/com/example/chat/ingestion/pipeline/DataIngestionPipeline.java:124-141 | the no-extractor failure happens exactly when the factory has none; the extraction failure exactly when the text extractor cannot read the body; content exactly when it can, equal to its extraction |
| Pipeline.DataIngestionPipeline.ChunkText | src/main/java/com/example/chat/ingestion/pipeline/DataIngestionPipeline.java:151-168 | extracted content is chunked with the chunker's configured sizes; the null content of the PDF/CSV extractors makes the stage fail |
| Pipeline.DataIngestionPipeline.GenerateEmbeddings | src/main/java/com/example/chat/ingestion/pipeline/DataIngestionPipeline.java:176-227 | the slice loop's result and embedBatch calls are those of `GenerateSpec`: none for no chunks, one for at most 50, otherwise one per slice of 50 until one fails |
| Pipeline.DataIngestionPipeline.StoreEmbeddings | src/main/java/com/example/chat/ingestion/pipeline/DataIngestionPipeline.java:235-248 | no chunks: empty ids and the table untouched; otherwise storeBatch's writes and its answer, a failure wrapped as a storage failure |
| Pipeline.DataIngestionPipeline.ProcessData | src/main/java/com/example/chat/ingestion/pipeline/DataIngestionPipeline.java:88-115 | the stages run extract, chunk, embed, store; a failure before storage is the result and leaves the table unchanged; otherwise the result and table are the storage stage's |
| Pipeline.EmbedInTurnPrefix | src/main/java/com/example/chat/ingestion/pipeline/DataIngestionPipeline.java:207-213 | the >50 loop calls embedBatch on a prefix of the slices, and on all of them when it succeeds |
| Pipeline.EmbedInTurnStops | src/main/java/com/example/chat/ingestion/pipeline/DataIngestionPipeline.java:207-225 | every call but the last succeeded; the loop fails exactly with its last call's error and succeeds only when every call did |
| Pipeline.EmbedInTurnCorresponds | src/main/java/com/example/chat/ingestion/pipeline/DataIngestionPipeline.java:204-221 | the successful loop's results, concatenated in slice order, match the chunks of the slices one by one |
| Pipeline.GenerateOutcome | src/main/java/com/example/chat/ingestion/pipeline/DataIngestionPipeline.java:176-227 | no call for no chunks; calls take consecutive non-empty slices of at most 50; on success they cover the list and output i keeps input i's fields; on failure the error is the last call's |
| Pipeline.NothingExtractedStops | src/main/java/com/example/chat/ingestion/pipeline/DataIngestionPipeline.java:93-102 | a document without extracted text fails before embedding, whatever the backend and ids; with no extractor the failure is the no-extractor one |
| Pipeline.ProcessedIds | src/main/java/com/example/chat/ingestion/pipeline/DataIngestionPipeline.java:93-106 | a fully processed document returns the ids given to its chunks, in chunk order, every chunk was written, and chunk k has index k |
| TxtExtractor.PiecesCount | src/main/java/com/example/chat/ingestion/extraction/TxtTextExtractor.java:59 | splitting at line breaks gives one piece more than there are breaks, "\r\n" counting as one |
| TxtExtractor.CountLinesIsBreaksPlusOne | src/main/java/com/example/chat/ingestion/extraction/TxtTextExtractor.java:54-60 | a text ending in an ordinary character has one line more than line breaks |
| TxtExtractor.TrailingBreaksAddNoLines | src/main/java/com/example/chat/ingestion/extraction/TxtTextExtractor.java:59 | line breaks at the end of a text add no lines: trailing empty pieces are dropped |
| TxtExtractor.CountLinesUpToLastCharacter | src/main/java/com/example/chat/ingestion/extraction/TxtTextExtractor.java:54-60 | the line count is one more than the breaks up to the last ordinary character |
| TxtExtractor.CountLinesEdgeCases | src/main/java/com/example/chat/ingestion/extraction/TxtTextExtractor.java:55-59 | the empty text has 0 lines, a text without breaks 1, a text made only of breaks 0 |
| TxtExtractor.CrLfIsOneBreak | src/main/java/com/example/chat/ingestion/extraction/TxtTextExtractor.java:59 | "a\r\nb" has 2 lines: "\r\n" is a single break |
| TxtExtractor.LfCrIsTwoBreaks | src/main/java/com/example/chat/ingestion/extraction/TxtTextExtractor.java:59 | "a\n\rb" has 3 lines: "\n\r" is two breaks |
| TxtExtractor.ExtractContent | src/main/java/com/example/chat/ingestion/extraction/TxtTextExtractor.java:31-52 | the content has the document's id, filename and text; its metadata is a copy of the document's plus character_count and line_count; a read failure is an error |
| ExtractorFactory.TextExtractorFactory.constructor | src/main/java/com/example/chat/ingestion/factory/TextExtractorFactory.java:15-17 | the extractor list is fixed at construction (a constant field) |
| ExtractorFactory.TextExtractorFactory.GetExtractor | src/main/java/com/example/chat/ingestion/factory/TextExtractorFactory.java:19-23 | the answer is the first extractor in list order that supports the type and is in the list; it is empty exactly when none does |
| ExtractorFactory.FirstSupporting | src/main/java/com/example/chat/ingestion/factory/TextExtractorFactory.java:19-23 | every extractor before the chosen position refuses the type, and the one at it supports it |
| ExtractorFactory.RegisteredExtractors | src/main/java/com/example/chat/ingestion/factory/TextExtractorFactory.java:19-23 | first match over the supports tests of TxtTextExtractor.java:23-28, PdfTextExtractor.java:11-16 and CsvTextExtractor.java:14-20; with extractors in the order txt, pdf, csv (an assumed order): text/plain goes to the text extractor, application/pdf to the PDF one, text/csv and application/csv to the CSV one, anything else to none |
| ExtractorFactory.SupportsDisjoint | src/main/java/com/example/chat/ingestion/extraction/CsvTextExtractor.java:14-20 | no content type is supported by two of the text, PDF and CSV extractors (their supports tests at TxtTextExtractor.java:23-28, PdfTextExtractor.java:11-16 and these lines) |
| ExtractorFactory.RegistrationOrderIrrelevant | src/main/java/com/example/chat/ingestion/factory/TextExtractorFactory.java:13-23 | whatever the order of an injected list holding all three extractors, the factory finds one exactly when some extractor supports the type, and then it is that extractor |
| EmbeddingDto.ForSingleText | src/main/java/com/example/chat/dto/EmbeddingDto.java:29-38 | one input named "input", of type BYTES, with shape [1] and data [text] |
| EmbeddingDto.ForMultipleTexts | src/main/java/com/example/chat/dto/EmbeddingDto.java:40-49 | one input named "input", of type BYTES, whose shape is the number of texts and whose data is the texts in order |
| EmbeddingDto.SingleIsMultipleOfOne | src/main/java/com/example/chat/dto/EmbeddingDto.java:29-49 | a single text is sent exactly as a list of one text |
| EmbeddingDto.Convert | src/main/java/com/example/chat/dto/EmbeddingDto.java:57-89 | the converter's loop computes `Converted`, keeping the numbers of a flat list in order |
| EmbeddingDto.NumbersMembership | src/main/java/com/example/chat/dto/EmbeddingDto.java:72-80 | an element is kept exactly when it is a number of the list |
| EmbeddingDto.NumbersFromFront | src/main/java/com/example/chat/dto/EmbeddingDto.java:74-78 | read from the front, each element is kept when a number and dropped otherwise, in order |
| EmbeddingDto.NumbersOfVector | src/main/java/com/example/chat/dto/EmbeddingDto.java:72-80 | a list of numbers is kept whole |
| EmbeddingDto.ConvertEdgeCases | src/main/java/com/example/chat/dto/EmbeddingDto.java:58-66 | null, the empty list and unrecognised values give nothing; a number x gives [[x]] |
| EmbeddingDto.ConvertedAreVectors | src/main/java/com/example/chat/dto/EmbeddingDto.java:68-88 | apart from a nested list (passed on unchecked), the converter gives at most one vector, made of numbers only |
| EmbeddingDto.ConvertIdempotent | src/main/java/com/example/chat/dto/EmbeddingDto.java:57-89 | converting an already converted value changes nothing |
| EmbeddingDto.DeserializedData | src/main/java/com/example/chat/dto/EmbeddingDto.java:92-105 | a deserialised output's data is the converter's result |
| EmbeddingDto.EmbeddingsOfResponse | src/main/java/com/example/chat/dto/EmbeddingDto.java:113-128 | embeddings come only from a present first output holding a list; the first embedding is their first element, or the empty list |
| EmbeddingDto.FlatResponse | src/main/java/com/example/chat/dto/EmbeddingDto.java:72-80 | a first output carrying a flat list led by a number gives as first embedding the vector of its numbers |
| RateWindow.ApiKeyUsage.constructor | src/main/java/com/example/ragchat/ratelimit/RateLimiter.java:111-113 | a new usage record has count 0 and opens at the given time |
| RateWindow.ApiKeyUsage.ResetWindow | src/main/java/com/example/ragchat/ratelimit/RateLimiter.java:115-118 | count back to 0, window start at the new time |
| RateWindow.ApiKeyUsage.IncrementAndGet | src/main/java/com/example/ragchat/ratelimit/RateLimiter.java:120-122 | the count goes up by one and is returned; the start is kept |
| RateWindow.Admit | src/main/java/com/example/ragchat/ratelimit/RateLimiter.java:51-66 | a key without a window gets one opening at now; a window older than 60000 ms is renewed at now; the request is always counted |
| RateWindow.AtMostLimitPerWindow | src/main/java/com/example/ragchat/ratelimit/RateLimiter.java:58-64 | within one window every request is counted and exactly min(requests, limit - count) are allowed |
| RateWindow.FreshWindowAdmitsLimit | src/main/java/com/example/ragchat/ratelimit/RateLimiter.java:63-64 | a fresh window lets at most `limit` requests through in its minute |
| RateWindow.RemainingAfterAdmit | src/main/java/com/example/ragchat/ratelimit/RateLimiter.java:71-89 | right after a denied request nothing remains; after an allowed one, the limit less the count |
| RateWindow.RemainingBounds | src/main/java/com/example/ragchat/ratelimit/RateLimiter.java:87 | what remains lies between 0 and the limit |
| RateWindow.ResetTimeBounds | src/main/java/com/example/ragchat/ratelimit/RateLimiter.java:94-105 | the reset time is never negative and at most 60000 ms once started; positive means the window still runs; an expired window reports 0 |
| RagchatRateLimit.RateLimiter.constructor | src/main/java/com/example/ragchat/ratelimit/RateLimiter.java:17-19 | no windows, no custom limits, the given default |
| RagchatRateLimit.RateLimiter.SetCustomRateLimit | src/main/java/com/example/ragchat/ratelimit/RateLimiter.java:27-43 | a positive value becomes the key's limit; any other removes it so the default applies; no other key's limit changes |
| RagchatRateLimit.RateLimiter.AllowRequest | src/main/java/com/example/ragchat/ratelimit/RateLimiter.java:51-66 | only this key's window changes, as `Admit` says (created if absent); allowed exactly when the new count is within the key's limit |
| RagchatRateLimit.RateLimiter.GetRemainingRequests | src/main/java/com/example/ragchat/ratelimit/RateLimiter.java:71-89 | the answer is `Remaining`; an expired window is renewed; an unknown key gets no entry |
| RagchatRateLimit.RateLimiter.GetResetTimeMs | src/main/java/com/example/ragchat/ratelimit/RateLimiter.java:94-105 | 0 for an unknown key, otherwise max(0, start + 60000 - now) |
| ChatRateLimit.RateLimiter.constructor | src/main/java/com/example/chat/ratelimit/RateLimiter.java:16-18 | no windows, the given default |
| ChatRateLimit.RateLimiter.GetRateLimit | src/main/java/com/example/chat/ratelimit/RateLimiter.java:13-23 | nothing writes the custom limits, so the limit is always the default |
| ChatRateLimit.RateLimiter.AllowRequest | src/main/java/com/example/chat/ratelimit/RateLimiter.java:25-37 | only this key's window changes, as `Admit` says; allowed exactly when the new count is within the limit |
| ChatRateLimit.RateLimiter.GetRemainingRequests | src/main/java/com/example/chat/ratelimit/RateLimiter.java:40-57 | the answer is `Remaining`; an expired window is renewed; an unknown key gets no entry |
| ChatRateLimit.RateLimiter.GetResetTimeMs | src/main/java/com/example/chat/ratelimit/RateLimiter.java:60-71 | 0 for an unknown key, otherwise max(0, start + 60000 - now) |
| RateLimitFilter.RateLimitFilter.DoFilter | src/main/java/com/example/chat/ratelimit/RateLimitFilter.java:27-80 | the response and the limiter's new windows are those of `Decide` |
| RateLimitFilter.PassThroughUncounted | src/main/java/com/example/chat/ratelimit/RateLimitFilter.java:29-42 | exempt paths and requests without a key pass on with no headers and the windows untouched |
| RateLimitFilter.KeyedRequest | src/main/java/com/example/chat/ratelimit/RateLimitFilter.java:44-79 | a keyed request is counted once against its key; it is refused (429, Remaining 0) exactly when over the limit; otherwise it passes with Remaining = limit - count >= 0; the Reset header is never negative, and at most 60 unless the clock went back past the window start |
| RateLimitFilter.BackwardClockReset | src/main/java/com/example/chat/ratelimit/RateLimitFilter.java:70-77 | with a window opened at 100000 ms and the clock at 0, the request passes and the Reset header is 160 seconds |
| ApiKeyFilter.ApiKeyFilter.constructor | src/main/java/com/example/chat/security/ApiKeyFilter.java:19-23 | the key loop collects `KeysOf` the comma-separated pieces |
| ApiKeyFilter.ApiKeyFilter.Decide | src/main/java/com/example/chat/security/ApiKeyFilter.java:26-42 | the request passes exactly when the path is exempt or the header is a configured key, and then nothing is written; otherwise the answer is 401 with content type application/json and the body "Invalid or missing API key", and the chain is not invoked |
| ApiKeyFilter.KeysOfMembership | src/main/java/com/example/chat/security/ApiKeyFilter.java:20-22 | a key is configured exactly when it is the trim of a non-blank piece |
| ApiKeyFilter.ConfiguredKeysAreTrimmed | src/main/java/com/example/chat/security/ApiKeyFilter.java:21 | every configured key is already trimmed |
| ApiKeyFilter.PaddedHeaderRefused | src/main/java/com/example/chat/security/ApiKeyFilter.java:34-40 | the header is compared untrimmed: one starting with a character trim cuts is refused with 401 |
| ApiKeyFilter.ControlCharacterKey | src/main/java/com/example/chat/security/ApiKeyFilter.java:21 | a piece holding only U+0000 is not blank, yet trims to the empty key |
| JavaStrings.TrimShape | src/main/java/com/example/chat/security/ApiKeyFilter.java:21 | trim keeps a contiguous piece, cuts only characters up to U+0020, and leaves none at either end |
| JavaStrings.TrimIdempotent | src/main/java/com/example/chat/security/ApiKeyFilter.java:21 | trim is idempotent |
| JavaStrings.TrimEmpty | src/main/java/com/example/ragchat/service/SessionService.java:24 | trim gives the empty string exactly when every character is at most U+0020 |
| JavaStrings.SplitJoin | src/main/java/com/example/chat/ingestion/storage/PostgresVectorStorage.java:71-73 | splitting a join of separator-free parts gives the parts back |
| JavaStrings.JoinSeparatorCount | src/main/java/com/example/chat/ingestion/storage/PostgresVectorStorage.java:71-73 | joining n separator-free parts adds n - 1 separators |
| SessionService.SessionService.constructor | src/main/java/com/example/ragchat/service/SessionService.java:14-18 | the repository starts empty |
| SessionService.SessionService.CreateSession | src/main/java/com/example/ragchat/service/SessionService.java:20-29 | the new session has the fresh id, the user, the normalised title, is neither favourite nor deleted, is created and updated at now, and is saved under its id |
| SessionService.SessionService.Get | src/main/java/com/example/ragchat/service/SessionService.java:35-37 | a session is returned exactly when it exists and is not deleted |
| SessionService.Find | src/main/java/com/example/ragchat/service/SessionService.java:35-37 | get over a repository: found exactly when present and not deleted, and then the stored session |
| SessionService.SessionService.Update | src/main/java/com/example/ragchat/service/SessionService.java:39-45 | missing or deleted: the error and nothing saved; otherwise the title and favourite given (title untrimmed) replace the old ones, updatedAt is now, and the session is saved and returned |
| SessionService.SessionService.Delete | src/main/java/com/example/ragchat/service/SessionService.java:47-52 | missing or deleted: the error and nothing saved; otherwise the row is kept, marked deleted at now |
| SessionService.NormalizedTitleIsTrimmed | src/main/java/com/example/ragchat/service/SessionService.java:24 | a new session's title is already trimmed |
| SessionService.NormalizedTitleEmpty | src/main/java/com/example/ragchat/service/SessionService.java:24 | a new session's title is empty exactly when the given title is not blank yet consists only of characters up to U+0020, such as U+0001 |
| SessionService.CreateThenGet | src/main/java/com/example/ragchat/service/SessionService.java:20-37 | after createSession the session is found as built and other ids are found as before |
| SessionService.DeleteThenGet | src/main/java/com/example/ragchat/service/SessionService.java:35-52 | after delete the session is no longer found, its row is kept with only the deleted flag and update time changed, so a later update or delete fails |
| SessionService.UpdateKeepsSession | src/main/java/com/example/ragchat/service/SessionService.java:39-45 | an update keeps the session visible, its id, owner and creation time, and any field not given; updating twice with the same values equals updating once |

## Left out

- Threads and futures are left out: executors, `CompletableFuture` composition, daemon threads and `System.gc()`. Stages and sub-batches run one after another in submission order. Output order is fixed by submission order, so no result is lost.
- EmbeddingService.EmbedBatch: when several sub-batches fail concurrently, `join` surfaces one of their exceptions. The model reports the first failing sub-batch in submission order, and every sub-batch is still called.
- The rate limiters' concurrency is left out: `ConcurrentHashMap`, `synchronized` and `AtomicInteger`. The limiters are used by one thread at a time.
- RateLimitFilter.RateLimitFilter.DoFilter: the three clock reads of one request are taken as a single instant `now`.
- RateLimitFilter.RateLimitFilter.DoFilter: the JSON error body, the content type and the response writer are not modelled. Header values are kept as numbers, not their decimal strings.
- Integer widths are not modelled. Counts and times are unbounded integers, so the `int` counter's wrap-around after 2^31 requests and `long` overflow are not covered. Java string lengths are counted in UTF-16 units, and the model counts `char`s.
- The `%.6f` formatting of vector elements is an uninterpreted function, and doubles are opaque bit patterns.
- EmbeddingDto.Converted: a number is kept only as its double value, so Integer 1 and Double 1.0 are the same `JNum`. The converter passes a list of lists on unchanged, so integer literals there stay Integer or Long objects inside the `List<List<Double>>`. That difference shows only when the vectors are unboxed later.
- JDBC, the JSON serialisation of metadata, and their exception types are reduced to an `accepts` predicate. A refused write fails at that chunk.
- Transactions are not modelled. The pipeline reaches `storeBatch` through `storeBatchAsync`, a call on the same object, where the `@Transactional` proxy does not apply. So the writes before a failure stay, as modelled.
- Stream decoding (`IOUtils.toString`) is left out. The decoded text, or a read failure, is the document's `body`.
- The PDF and CSV extractors only answer `supports`; their `extract` returns null, which makes the chunking stage fail.
- Logging and the pipeline's other constructor parameters (chunk type, embedding provider) are not part of this model.
- `listSessions` (paging and ordering by update time in the repository query) is not part of this model. The JPA repository is a map from id to session: `save` replaces the row under the session's id, and setters on the managed entity are modelled as a value update followed by `save`.
- SessionService.SessionService.CreateSession: the two `OffsetDateTime.now()` reads are one instant `now`, and the random UUID is the `id` parameter.
- The network clients, the RAG services, controllers, DTOs that only hold fields, and the repositories are not part of this model. The embedding backend is an abstract function that may fail.
- RateLimitFilter.KeyedRequest: the 60-second bound on the Reset header holds only when the key's window did not start after `now`. A clock that went back gives a larger reset, as `BackwardClockReset` shows (160 seconds).
- RateWindow.ResetTimeBounds: the 60000 ms bound assumes the clock does not run backwards (`now >= start`). The model does not rule out a backwards clock, which the source also does not check.

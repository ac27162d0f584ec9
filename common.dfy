/** Shared value types of the ingestion path: identifiers, metadata values,
    the records handed from stage to stage, and the Option/Result wrappers
    that stand for Java's null and exceptions. */
module Common {

  datatype Option<+T> = None | Some(value: T)

  datatype Result<+T, +E> = Ok(value: T) | Err(error: E) {
    predicate IsFailure() { Err? }
    function PropagateFailure<U>(): Result<U, E>
      requires Err?
    {
      Err(error)
    }
    function Extract(): T
      requires Ok?
    {
      value
    }
  }

  /** A java.util.UUID; identifiers are opaque, only equality matters. */
  type Uuid = nat

  /** A Java double, kept as its 64-bit pattern: no arithmetic is done on it. */
  datatype Double = Double(bits: bv64)

  /** The values the source puts into its metadata maps (Map<String, Object>). */
  datatype MetaValue =
    | Str(s: string)        // a String
    | Int(i: int)           // an Integer
    | IdText(id: Uuid)      // uuid.toString()
    | Other(tag: nat)       // any other object a caller put there

  type Metadata = map<string, MetaValue>

  /** Document: an uploaded file. `body` is its content once decoded as
      UTF-8, None when reading the stream fails. */
  datatype Document = Document(
    id: Uuid,
    filename: string,
    contentType: string,
    metadata: Metadata,
    body: Option<string>)

  /** ExtractedContent: what a text extractor produces and the chunker consumes. */
  datatype ExtractedContent = ExtractedContent(
    id: Uuid,
    source: string,
    content: string,
    metadata: Metadata)

  /** TextChunk: one window of a document's text. */
  datatype TextChunk = TextChunk(
    id: Uuid,
    documentId: Option<Uuid>,
    source: string,
    content: string,
    metadata: Metadata,
    chunkIndex: int)

  /** EmbeddedChunk: a TextChunk plus its vector and the model that produced it. */
  datatype EmbeddedChunk = EmbeddedChunk(
    id: Uuid,
    documentId: Option<Uuid>,
    source: string,
    content: string,
    metadata: Metadata,
    chunkIndex: int,
    embedding: seq<Double>,
    embeddingModel: Option<string>)

  function Min(a: int, b: int): int { if a <= b then a else b }

  function Max(a: int, b: int): int { if a >= b then a else b }

  /** Java's Map.getOrDefault. */
  function GetOrDefault<K, V>(m: map<K, V>, key: K, default: V): V
  {
    if key in m then m[key] else default
  }

  /** Java's String.startsWith. */
  predicate StartsWith(s: string, prefix: string) {
    |prefix| <= |s| && s[..|prefix|] == prefix
  }

  /** The API documentation and health endpoints, which both request
      filters let through untouched. */
  predicate ExemptPath(path: string)
  {
    StartsWith(path, "/v3/api-docs") || StartsWith(path, "/swagger-ui") || StartsWith(path, "/actuator/health")
  }

  /** The contents of the chunks, in order. */
  function Contents(chunks: seq<TextChunk>): seq<string>
  {
    seq(|chunks|, i requires 0 <= i < |chunks| => chunks[i].content)
  }

  /** The ids of the chunks, in order. */
  function Ids(chunks: seq<EmbeddedChunk>): seq<Uuid>
  {
    seq(|chunks|, i requires 0 <= i < |chunks| => chunks[i].id)
  }

  /** Concatenation of a sequence of sequences, in order. */
  function Flatten<T>(parts: seq<seq<T>>): seq<T>
  {
    if parts == [] then [] else parts[0] + Flatten(parts[1..])
  }

  /** Two part-lists of matching shape: element j of part k of qs sits in
      the concatenation of qs after the elements of the parts before k,
      counted in ps. */
  lemma {:induction false} FlattenIndex<T, U>(ps: seq<seq<T>>, qs: seq<seq<U>>, k: nat, j: nat)
    requires |ps| == |qs| && forall i :: 0 <= i < |ps| ==> |ps[i]| == |qs[i]|
    requires k < |ps| && j < |ps[k]|
    ensures |Flatten(ps[..k])| + j < |Flatten(qs)|
    ensures Flatten(qs)[|Flatten(ps[..k])| + j] == qs[k][j]
  {
    if k == 0 {
      assert ps[..0] == [];
    } else {
      FlattenIndex(ps[1..], qs[1..], k - 1, j);
      assert ps[..k] == [ps[0]] + ps[1..][..k - 1];
      assert ps[..k][1..] == ps[1..][..k - 1];
    }
  }

  /** A prefix of xs followed by a prefix of the slice after it is a longer
      prefix of xs. */
  lemma PrefixThroughSlice<T>(xs: seq<T>, i: nat, end: nat, j: nat)
    requires i <= end <= |xs| && j <= end - i
    ensures xs[..i] + xs[i..end][..j] == xs[..i + j]
  {
    assert xs[i..end][..j] == xs[i..i + j];
    assert xs[..i + j] == xs[..i] + xs[i..i + j];
  }
}

/** EmbeddingDto: the request records sent to the embedding server and the
    normalisation of the loosely typed `data` field of its response into a
    list of vectors. JSON values are a small datatype; numbers keep only
    their double, no arithmetic is done on them. */
module EmbeddingDto {
  import opened Common

  /** A deserialised JSON value as the converter sees it. */
  datatype Json =
    | JNull
    | JNum(n: Double)           // any Number, by its double value; Integer 1 and Double 1.0 are one JNum
    | JList(items: seq<Json>)   // any List
    | JOther                    // a string, a boolean or an object

  // ---------------------------------------------------------------------
  // Requests

  datatype TensorInput = TensorInput(name: string, shape: seq<int>, dataType: string, data: seq<string>)

  datatype EmbeddingRequest = EmbeddingRequest(inputs: seq<TensorInput>)

  const InputName := "input"
  const BytesType := "BYTES"

  /** An input of the form the server expects: named "input", of type
      BYTES, whose shape is the number of texts it carries. */
  predicate WellShaped(t: TensorInput)
  {
    t.name == InputName && t.dataType == BytesType && t.shape == [|t.data|]
  }

  /** forSingleText: one well-shaped input carrying the text. */
  function ForSingleText(text: string): (r: EmbeddingRequest)
    ensures |r.inputs| == 1 && WellShaped(r.inputs[0]) && r.inputs[0].data == [text]
  {
    EmbeddingRequest([TensorInput(InputName, [1], BytesType, [text])])
  }

  /** forMultipleTexts: one well-shaped input carrying the texts in order. */
  function ForMultipleTexts(texts: seq<string>): (r: EmbeddingRequest)
    ensures |r.inputs| == 1 && WellShaped(r.inputs[0]) && r.inputs[0].data == texts
  {
    EmbeddingRequest([TensorInput(InputName, [|texts|], BytesType, texts)])
  }

  /** A single text is sent exactly as a list of one text. */
  lemma SingleIsMultipleOfOne(text: string)
    ensures ForSingleText(text) == ForMultipleTexts([text])
  {
  }

  // ---------------------------------------------------------------------
  // The data converter

  /** The numbers among xs, in order. */
  function Numbers(xs: seq<Json>): seq<Json>
  {
    if |xs| == 0 then []
    else Numbers(xs[..|xs| - 1]) + (if xs[|xs| - 1].JNum? then [xs[|xs| - 1]] else [])
  }

  /** What the converter makes of a value: nothing for null, an empty list
      or anything it does not recognise; a list of lists unchanged; a list
      starting with a number as the one vector of its numbers; a number as
      a vector of one. */
  function Converted(value: Json): seq<Json>
  {
    match value
    case JNull => []
    case JList(items) =>
      if |items| == 0 then []
      else if items[0].JList? then items
      else if items[0].JNum? then [JList(Numbers(items))]
      else []
    case JNum(_) => [JList([value])]
    case JOther => []
  }

  /** EmbeddingDataConverter.convert. */
  method Convert(value: Json) returns (r: seq<Json>)
    ensures r == Converted(value)
  {
    if value.JNull? {
      return [];
    }
    if value.JList? {
      var list := value.items;
      if |list| == 0 {
        return [];
      }
      if list[0].JList? {
        return list;
      }
      if list[0].JNum? {
        var doubles: seq<Json> := [];
        for i := 0 to |list|
          invariant doubles == Numbers(list[..i])
        {
          assert list[..i + 1][..i] == list[..i];
          if list[i].JNum? {
            doubles := doubles + [list[i]];
          }
        }
        assert list[..|list|] == list;
        return [JList(doubles)];
      }
    }
    if value.JNum? {
      return [JList([value])];
    }
    return [];
  }

  /** A vector: a list of numbers. */
  predicate IsVector(j: Json)
  {
    j.JList? && forall i :: 0 <= i < |j.items| ==> j.items[i].JNum?
  }

  /** Filtering the numbers of a concatenation filters each part. */
  lemma {:induction false} NumbersAppend(xs: seq<Json>, ys: seq<Json>)
    ensures Numbers(xs + ys) == Numbers(xs) + Numbers(ys)
  {
    if |ys| > 0 {
      var init := ys[..|ys| - 1];
      assert (xs + ys)[..|xs + ys| - 1] == xs + init;
      NumbersAppend(xs, init);
    } else {
      assert xs + ys == xs;
    }
  }

  /** The numbers of xs are exactly its number elements: read from the
      front, each element is kept when it is a number and dropped otherwise,
      so the order is kept and only numbers remain. */
  lemma NumbersFromFront(xs: seq<Json>)
    requires |xs| > 0
    ensures Numbers(xs) == (if xs[0].JNum? then [xs[0]] else []) + Numbers(xs[1..])
  {
    assert xs == [xs[0]] + xs[1..];
    NumbersAppend([xs[0]], xs[1..]);
    assert Numbers([xs[0]]) == Numbers([]) + (if xs[0].JNum? then [xs[0]] else []);
  }

  /** Only numbers are kept. */
  lemma {:induction false} NumbersAreVector(xs: seq<Json>)
    ensures IsVector(JList(Numbers(xs)))
  {
    if |xs| > 0 {
      NumbersAreVector(xs[..|xs| - 1]);
    }
  }

  /** An element is kept exactly when it is a number of xs. */
  lemma {:induction false} NumbersMembership(xs: seq<Json>, x: Json)
    ensures x in Numbers(xs) <==> x in xs && x.JNum?
  {
    if |xs| > 0 {
      var init := xs[..|xs| - 1];
      NumbersMembership(init, x);
      assert xs == init + [xs[|xs| - 1]];
      assert x in xs <==> x in init || x == xs[|xs| - 1];
    }
  }

  /** A list of numbers is kept whole. */
  lemma {:induction false} NumbersOfVector(xs: seq<Json>)
    requires IsVector(JList(xs))
    ensures Numbers(xs) == xs
  {
    if |xs| > 0 {
      var init := xs[..|xs| - 1];
      NumbersOfVector(init);
      assert xs == init + [xs[|xs| - 1]];
    }
  }

  /** The converter's edge cases: null, the empty list and unrecognised
      values give no vectors, a number x gives [[x]]. */
  lemma ConvertEdgeCases(x: Double)
    ensures Converted(JNull) == [] && Converted(JList([])) == [] && Converted(JOther) == []
    ensures Converted(JNum(x)) == [JList([JNum(x)])]
  {
  }

  /** Unless the value is a list whose first element is a list (which is
      passed on unchecked), every vector the converter gives is a list of
      numbers, and there is at most one. */
  lemma ConvertedAreVectors(value: Json)
    requires !(value.JList? && |value.items| > 0 && value.items[0].JList?)
    ensures |Converted(value)| <= 1
    ensures forall k :: 0 <= k < |Converted(value)| ==> IsVector(Converted(value)[k])
  {
    if value.JList? && |value.items| > 0 && value.items[0].JNum? {
      NumbersAreVector(value.items);
    }
  }

  /** Normalising an already normalised value changes nothing. */
  lemma ConvertIdempotent(value: Json)
    ensures Converted(JList(Converted(value))) == Converted(value)
  {
  }

  // ---------------------------------------------------------------------
  // Responses

  datatype TensorOutput = TensorOutput(name: string, shape: seq<int>, dataType: string, data: Json)

  /** `outputs` is None for a null list; an element is None for a null output. */
  datatype EmbeddingResponse = EmbeddingResponse(
    modelName: string,
    modelVersion: string,
    outputs: Option<seq<Option<TensorOutput>>>)

  /** The output record as deserialised: the converter is applied to `data`. */
  function Deserialized(name: string, shape: seq<int>, dataType: string, raw: Json): TensorOutput
  {
    TensorOutput(name, shape, dataType, JList(Converted(raw)))
  }

  /** getEmbeddingData: the data when it is a list, otherwise nothing. */
  function GetEmbeddingData(o: TensorOutput): seq<Json>
  {
    if o.data.JList? then o.data.items else []
  }

  /** getEmbeddings: the first output's data, nothing when there is no
      first output. */
  function GetEmbeddings(resp: EmbeddingResponse): seq<Json>
  {
    match resp.outputs
    case None => []
    case Some(os) =>
      if |os| == 0 || os[0].None? then [] else GetEmbeddingData(os[0].value)
  }

  /** getFirstEmbedding: the first vector, the empty list when there is none. */
  function GetFirstEmbedding(resp: EmbeddingResponse): Json
  {
    var es := GetEmbeddings(resp);
    if |es| == 0 then JList([]) else es[0]
  }

  /** A deserialised output's data is the converter's result. */
  lemma DeserializedData(name: string, shape: seq<int>, dataType: string, raw: Json)
    ensures GetEmbeddingData(Deserialized(name, shape, dataType, raw)) == Converted(raw)
  {
  }

  /** getEmbeddings gives vectors only from a first output that is present
      and holds a list, and then gives that list; getFirstEmbedding is its
      first element, or the empty list. */
  lemma EmbeddingsOfResponse(resp: EmbeddingResponse)
    ensures var es := GetEmbeddings(resp);
      (es != [] ==>
        resp.outputs.Some? && |resp.outputs.value| > 0 && resp.outputs.value[0].Some? &&
        resp.outputs.value[0].value.data == JList(es)) &&
      (es == [] ==> GetFirstEmbedding(resp) == JList([])) &&
      (es != [] ==> GetFirstEmbedding(resp) == es[0])
  {
  }

  /** A response whose first output carried a flat list of numbers (and
      possibly other values) has as first embedding the vector of those
      numbers in order. */
  lemma FlatResponse(name: string, version: string, o: TensorOutput, rest: seq<Option<TensorOutput>>, items: seq<Json>)
    requires |items| > 0 && items[0].JNum?
    requires o == Deserialized(o.name, o.shape, o.dataType, JList(items))
    ensures var resp := EmbeddingResponse(name, version, Some([Some(o)] + rest));
      GetEmbeddings(resp) == [JList(Numbers(items))] &&
      GetFirstEmbedding(resp) == JList(Numbers(items)) &&
      IsVector(GetFirstEmbedding(resp))
  {
    NumbersAreVector(items);
  }
}

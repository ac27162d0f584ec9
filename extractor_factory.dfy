/** TextExtractorFactory: picks, for a content type, the first registered
    extractor that supports it. The PDF and CSV extractors only answer
    `supports`; their extraction returns null. */
module ExtractorFactory {
  import opened Common
  import TxtExtractor

  datatype Extractor = Txt | Pdf | Csv

  /** supports(contentType) of each extractor. */
  predicate Supports(e: Extractor, contentType: string)
  {
    match e
    case Txt => TxtExtractor.Supports(contentType)
    case Pdf => contentType == "application/pdf"
    case Csv => contentType == "text/csv" || contentType == "application/csv"
  }

  /** extract(document): Some(content), None for the null the PDF and CSV
      extractors return, or the extraction error. */
  function Extract(e: Extractor, doc: Document): Result<Option<ExtractedContent>, TxtExtractor.ExtractionError>
  {
    match e
    case Txt =>
      (match TxtExtractor.Extract(doc)
       case Ok(c) => Ok(Some(c))
       case Err(err) => Err(err))
    case Pdf => Ok(None)
    case Csv => Ok(None)
  }

  /** The factory over its fixed list of extractors. */
  class TextExtractorFactory {
    const extractors: seq<Extractor>

    constructor (extractors: seq<Extractor>)
      ensures this.extractors == extractors
    {
      this.extractors := extractors;
    }

    /** getExtractor: the first extractor in list order that supports the
        content type, None when there is none. */
    function GetExtractor(contentType: string): (r: Option<Extractor>)
      ensures r.Some? ==> Supports(r.value, contentType) && r.value in extractors
      ensures r.None? <==> forall i :: 0 <= i < |extractors| ==> !Supports(extractors[i], contentType)
      ensures r.Some? ==> r.value == extractors[FirstSupporting(extractors, contentType)]
    {
      var i := FirstSupporting(extractors, contentType);
      if i < |extractors| then Some(extractors[i]) else None
    }
  }

  /** The position of the first extractor supporting the content type
      (|es| when none does): every extractor before it refuses the type. */
  function FirstSupporting(es: seq<Extractor>, contentType: string): (i: nat)
    ensures i <= |es|
    ensures forall j :: 0 <= j < i ==> !Supports(es[j], contentType)
    ensures i < |es| ==> Supports(es[i], contentType)
  {
    if |es| == 0 || Supports(es[0], contentType) then 0
    else 1 + FirstSupporting(es[1..], contentType)
  }

  /** With the extractors in the order txt, pdf, csv: text/plain goes to
      the text extractor, application/pdf to the PDF one, text/csv and
      application/csv to the CSV one, and nothing else is supported. The
      order is an assumption, since the injected list has no fixed order;
      it does not matter, because the three supported sets are disjoint
      (SupportsDisjoint, RegistrationOrderIrrelevant). */
  lemma RegisteredExtractors(factory: TextExtractorFactory, contentType: string)
    requires factory.extractors == [Txt, Pdf, Csv]
    ensures var r := factory.GetExtractor(contentType);
      (r == Some(Txt) <==> contentType == "text/plain") &&
      (r == Some(Pdf) <==> contentType == "application/pdf") &&
      (r == Some(Csv) <==> contentType == "text/csv" || contentType == "application/csv") &&
      (r.None? <==>
        contentType != "text/plain" && contentType != "application/pdf" &&
        contentType != "text/csv" && contentType != "application/csv")
  {
    var es := factory.extractors;
    assert es[0] == Txt && es[1] == Pdf && es[2] == Csv;
  }

  /** No content type is supported by two different extractors. */
  lemma SupportsDisjoint(e1: Extractor, e2: Extractor, contentType: string)
    requires Supports(e1, contentType) && Supports(e2, contentType)
    ensures e1 == e2
  {
  }

  /** Whatever the order of a list holding all three extractors, the factory
      finds an extractor exactly when some extractor supports the type, and
      then it is that extractor. */
  lemma RegistrationOrderIrrelevant(factory: TextExtractorFactory, contentType: string)
    requires Txt in factory.extractors && Pdf in factory.extractors && Csv in factory.extractors
    ensures var r := factory.GetExtractor(contentType);
      (r.Some? <==> exists e :: Supports(e, contentType)) &&
      (forall e :: Supports(e, contentType) ==> r == Some(e))
  {
    var es := factory.extractors;
    var r := factory.GetExtractor(contentType);
    forall e | Supports(e, contentType)
      ensures r == Some(e)
    {
      var j :| 0 <= j < |es| && es[j] == e;
      assert r.Some?;
      SupportsDisjoint(r.value, e, contentType);
    }
  }
}

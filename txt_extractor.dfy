/** TxtTextExtractor: the plain-text extractor. Its line count follows
    String.split with the pattern "\r\n|\r|\n": at each position "\r\n" is
    tried first, and trailing empty pieces are dropped. */
module TxtExtractor {
  import opened Common
  import JavaStrings

  datatype ExtractionError = ReadFailed   // the IOException of reading the stream

  const TxtContentType := "text/plain"

  predicate Supports(contentType: string)
  {
    contentType == TxtContentType
  }

  predicate IsTerminator(c: char)
  {
    c == '\r' || c == '\n'
  }

  /** The length of the line break at the start of s: 2 for "\r\n", 1 for a
      lone '\r' or '\n', 0 when s does not start with one. */
  function BreakAt(s: string): nat
  {
    if |s| >= 2 && s[0] == '\r' && s[1] == '\n' then 2
    else if |s| >= 1 && IsTerminator(s[0]) then 1
    else 0
  }

  /** The pieces of s between line breaks, empty ones included. */
  function LinePieces(s: string): (ps: seq<string>)
    ensures |ps| > 0
  {
    if |s| == 0 then [""]
    else if BreakAt(s) > 0 then [""] + LinePieces(s[BreakAt(s)..])
    else
      var rest := LinePieces(s[1..]);
      [[s[0]] + rest[0]] + rest[1..]
  }

  /** The number of line breaks in s, "\r\n" counting as one. */
  function Breaks(s: string): nat
  {
    if |s| == 0 then 0
    else if BreakAt(s) > 0 then 1 + Breaks(s[BreakAt(s)..])
    else Breaks(s[1..])
  }

  /** text.split("\r\n|\r|\n"): the text itself when it holds no line break,
      otherwise the pieces without the trailing empty ones. */
  function SplitLines(text: string): seq<string>
  {
    if Breaks(text) == 0 then [text] else JavaStrings.DropTrailingEmpty(LinePieces(text))
  }

  /** countLines. */
  function CountLines(text: string): nat
  {
    if |text| == 0 then 0 else |SplitLines(text)|
  }

  /** extract: the document's text, with character_count and line_count
      added to a copy of its metadata. */
  function Extract(doc: Document): Result<ExtractedContent, ExtractionError>
  {
    match doc.body
    case None => Err(ReadFailed)
    case Some(text) =>
      var metadata := doc.metadata["character_count" := Int(|text|)]["line_count" := Int(CountLines(text))];
      Ok(ExtractedContent(doc.id, doc.filename, text, metadata))
  }

  // ---------------------------------------------------------------------
  // Properties

  /** There is one more piece than there are line breaks. */
  lemma {:induction false} PiecesCount(s: string)
    ensures |LinePieces(s)| == Breaks(s) + 1
  {
    if |s| > 0 {
      if BreakAt(s) > 0 {
        PiecesCount(s[BreakAt(s)..]);
      } else {
        PiecesCount(s[1..]);
      }
    }
  }

  /** A text ending in a character other than '\r' and '\n' has a non-empty
      last piece. */
  lemma {:induction false} LastPieceNonEmpty(s: string)
    requires |s| > 0 && !IsTerminator(s[|s| - 1])
    ensures LinePieces(s)[|LinePieces(s)| - 1] != ""
  {
    if BreakAt(s) > 0 {
      LastPieceNonEmpty(s[BreakAt(s)..]);
    } else if |s| > 1 {
      LastPieceNonEmpty(s[1..]);
    }
  }

  /** A text made only of line breaks splits into empty pieces. */
  lemma {:induction false} TerminatorsArePieces(t: string)
    requires forall i :: 0 <= i < |t| ==> IsTerminator(t[i])
    ensures forall i :: 0 <= i < |LinePieces(t)| ==> LinePieces(t)[i] == ""
  {
    if |t| > 0 {
      TerminatorsArePieces(t[BreakAt(t)..]);
    }
  }

  /** Appending line breaks to a text that ends in an ordinary character
      only appends empty pieces. */
  lemma {:induction false} PiecesAppendBreaks(s: string, t: string)
    requires |s| > 0 && !IsTerminator(s[|s| - 1])
    requires forall i :: 0 <= i < |t| ==> IsTerminator(t[i])
    ensures var ps := LinePieces(s + t);
      |ps| >= |LinePieces(s)| && ps[..|LinePieces(s)|] == LinePieces(s) &&
      forall i :: |LinePieces(s)| <= i < |ps| ==> ps[i] == ""
  {
    var st := s + t;
    if BreakAt(s) > 0 {
      var b := BreakAt(s);
      assert BreakAt(st) == b;
      assert st[b..] == s[b..] + t;
      PiecesAppendBreaks(s[b..], t);
    } else if |s| == 1 {
      assert st[1..] == t;
      assert BreakAt(st) == 0;
      TerminatorsArePieces(t);
    } else {
      assert BreakAt(st) == 0;
      assert st[1..] == s[1..] + t;
      PiecesAppendBreaks(s[1..], t);
    }
  }

  /** Dropping trailing empty pieces undoes appending empty pieces after a
      non-empty last piece. */
  lemma DropAfterNonEmpty(ps: seq<string>, qs: seq<string>)
    requires |ps| > 0 && ps[|ps| - 1] != ""
    requires |qs| >= |ps| && qs[..|ps|] == ps
    requires forall i :: |ps| <= i < |qs| ==> qs[i] == ""
    ensures JavaStrings.DropTrailingEmpty(qs) == ps
  {
  }

  /** A text ending in an ordinary character has one line more than it has
      line breaks ("\r\n" counting as one break). */
  lemma CountLinesIsBreaksPlusOne(s: string)
    requires |s| > 0 && !IsTerminator(s[|s| - 1])
    ensures CountLines(s) == Breaks(s) + 1
  {
    PiecesCount(s);
    if Breaks(s) > 0 {
      LastPieceNonEmpty(s);
      DropAfterNonEmpty(LinePieces(s), LinePieces(s));
    }
  }

  /** Line breaks at the end of a text add no lines. */
  lemma TrailingBreaksAddNoLines(s: string, t: string)
    requires |s| > 0 && !IsTerminator(s[|s| - 1])
    requires forall i :: 0 <= i < |t| ==> IsTerminator(t[i])
    ensures CountLines(s + t) == CountLines(s)
  {
    if |t| > 0 {
      PiecesAppendBreaks(s, t);
      LastPieceNonEmpty(s);
      DropAfterNonEmpty(LinePieces(s), LinePieces(s + t));
      PiecesCount(s);
      PiecesCount(s + t);
      assert (s + t)[|s|] == t[0];
      BreaksPositive(s + t, |s|);
      if Breaks(s) > 0 {
        DropAfterNonEmpty(LinePieces(s), LinePieces(s));
      }
    } else {
      assert s + t == s;
    }
  }

  /** The line count of any text with an ordinary character: one more than
      the number of line breaks up to its last ordinary character. */
  lemma CountLinesUpToLastCharacter(s: string, c: nat)
    requires c < |s| && !IsTerminator(s[c])
    requires forall i :: c < i < |s| ==> IsTerminator(s[i])
    ensures CountLines(s) == Breaks(s[..c + 1]) + 1
  {
    var t := s[c + 1..];
    assert s == s[..c + 1] + t;
    assert forall i :: 0 <= i < |t| ==> IsTerminator(t[i]) by {
      forall i | 0 <= i < |t|
        ensures IsTerminator(t[i])
      {
        assert t[i] == s[c + 1 + i];
      }
    }
    TrailingBreaksAddNoLines(s[..c + 1], t);
    CountLinesIsBreaksPlusOne(s[..c + 1]);
  }

  /** A text holding a line-break character has a line break. */
  lemma {:induction false} BreaksPositive(s: string, i: nat)
    requires i < |s| && IsTerminator(s[i])
    ensures Breaks(s) > 0
  {
    if BreakAt(s) == 0 {
      BreaksPositive(s[1..], i - 1);
    }
  }

  /** A text without '\r' and '\n' has no line break. */
  lemma {:induction false} NoBreaks(s: string)
    requires forall i :: 0 <= i < |s| ==> !IsTerminator(s[i])
    ensures Breaks(s) == 0
  {
    if |s| > 0 {
      NoBreaks(s[1..]);
    }
  }

  /** The empty text has no lines, a non-empty text without line breaks has
      one, and a text made only of line breaks has none. */
  lemma CountLinesEdgeCases(s: string)
    ensures |s| == 0 ==> CountLines(s) == 0
    ensures |s| > 0 && (forall i :: 0 <= i < |s| ==> !IsTerminator(s[i])) ==> CountLines(s) == 1
    ensures |s| > 0 && (forall i :: 0 <= i < |s| ==> IsTerminator(s[i])) ==> CountLines(s) == 0
  {
    if |s| > 0 && forall i :: 0 <= i < |s| ==> !IsTerminator(s[i]) {
      NoBreaks(s);
    }
    if |s| > 0 && forall i :: 0 <= i < |s| ==> IsTerminator(s[i]) {
      BreaksPositive(s, 0);
      TerminatorsArePieces(s);
    }
  }

  /** "\r\n" is a single line break. */
  lemma CrLfIsOneBreak()
    ensures CountLines("a\r\nb") == 2
  {
    var s := "a\r\nb";
    assert BreakAt(s) == 0 && s[1..] == "\r\nb";
    assert BreakAt("\r\nb") == 2 && "\r\nb"[2..] == "b";
    assert BreakAt("b") == 0 && "b"[1..] == "";
    CountLinesIsBreaksPlusOne(s);
  }

  /** "\n\r" is two line breaks. */
  lemma LfCrIsTwoBreaks()
    ensures CountLines("a\n\rb") == 3
  {
    var s := "a\n\rb";
    assert BreakAt(s) == 0 && s[1..] == "\n\rb";
    assert BreakAt("\n\rb") == 1 && "\n\rb"[1..] == "\rb";
    assert BreakAt("\rb") == 1 && "\rb"[1..] == "b";
    assert BreakAt("b") == 0 && "b"[1..] == "";
    CountLinesIsBreaksPlusOne(s);
  }

  /** The extracted content belongs to the document: its id and filename,
      the decoded text, and a copy of the document's metadata with
      character_count and line_count set; a read failure is an error. */
  lemma ExtractContent(doc: Document)
    ensures doc.body.None? ==> Extract(doc) == Err(ReadFailed)
    ensures doc.body.Some? ==>
      var text := doc.body.value;
      Extract(doc).Ok? &&
      var e := Extract(doc).value;
      e.id == doc.id && e.source == doc.filename && e.content == text &&
      e.metadata.Keys == doc.metadata.Keys + {"character_count", "line_count"} &&
      e.metadata["character_count"] == Int(|text|) &&
      e.metadata["line_count"] == Int(CountLines(text)) &&
      forall key :: key in doc.metadata && key != "character_count" && key != "line_count" ==>
        e.metadata[key] == doc.metadata[key]
  {
  }
}

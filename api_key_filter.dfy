/** ApiKeyFilter: lets a request through when its path is exempt or its
    x-api-key header is one of the configured keys; answers 401 otherwise.
    The configured keys are the comma-separated pieces of one string. */
module ApiKeyFilter {
  import opened Common
  import opened JavaStrings

  /** What the filter does with a request: the status and content type it
      sets (None when it sets none), the body it writes, and whether the
      request goes on down the chain. */
  datatype Response = Response(status: Option<int>, contentType: Option<string>, body: string, chained: bool)

  const Unauthorized := 401
  const JsonContentType := "application/json"
  const RefusalBody := "Invalid or missing API key"

  /** The request goes on, untouched. */
  const PassOn := Response(None, None, "", true)

  /** The 401 answer, written by the filter itself. */
  const Refused := Response(Some(Unauthorized), Some(JsonContentType), RefusalBody, false)

  /** The keys taken from the pieces: blank pieces are skipped, the others
      are trimmed. */
  function KeysOf(pieces: seq<string>): set<string>
  {
    if |pieces| == 0 then {}
    else
      var last := pieces[|pieces| - 1];
      KeysOf(pieces[..|pieces| - 1]) + (if IsBlank(last) then {} else {Trim(last)})
  }

  class ApiKeyFilter {
    var validKeys: set<string>

    /** The constructor: split the configuration on commas and add every
        piece that is not blank, trimmed. */
    constructor (keys: string)
      ensures validKeys == KeysOf(JavaSplit(keys, ','))
    {
      var pieces := JavaSplit(keys, ',');
      validKeys := {};
      new;
      var i := 0;
      while i < |pieces|
        invariant 0 <= i <= |pieces|
        invariant validKeys == KeysOf(pieces[..i])
      {
        assert pieces[..i + 1][..i] == pieces[..i];
        if !IsBlank(pieces[i]) {
          validKeys := validKeys + {Trim(pieces[i])};
        }
        i := i + 1;
      }
      assert pieces[..i] == pieces;
    }

    /** doFilterInternal: exempt paths go on; a missing key or one not in
        the set (compared exactly as sent) gets 401 with a JSON content
        type and the refusal text, and stops; a known key goes on. */
    function Decide(path: string, apiKey: Option<string>): (r: Response)
      reads this
      ensures r.chained <==> ExemptPath(path) || (apiKey.Some? && apiKey.value in validKeys)
      ensures !r.chained <==> r.status == Some(Unauthorized)
      ensures !r.chained ==> r.contentType == Some(JsonContentType) && r.body == RefusalBody
      ensures r.chained ==> r.status.None? && r.contentType.None? && r.body == ""
    {
      if ExemptPath(path) then PassOn
      else if apiKey.None? || apiKey.value !in validKeys then Refused
      else PassOn
    }
  }

  // ---------------------------------------------------------------------
  // Properties

  /** A key is configured exactly when it is the trim of some piece that is
      not blank. */
  lemma {:induction false} KeysOfMembership(pieces: seq<string>, k: string)
    ensures k in KeysOf(pieces) <==> exists i :: 0 <= i < |pieces| && !IsBlank(pieces[i]) && Trim(pieces[i]) == k
  {
    if |pieces| > 0 {
      var init := pieces[..|pieces| - 1];
      KeysOfMembership(init, k);
      if exists i :: 0 <= i < |init| && !IsBlank(init[i]) && Trim(init[i]) == k {
        var i :| 0 <= i < |init| && !IsBlank(init[i]) && Trim(init[i]) == k;
        assert pieces[i] == init[i];
      }
      if exists i :: 0 <= i < |pieces| && !IsBlank(pieces[i]) && Trim(pieces[i]) == k {
        var i :| 0 <= i < |pieces| && !IsBlank(pieces[i]) && Trim(pieces[i]) == k;
        if i < |init| {
          assert init[i] == pieces[i];
        }
      }
    }
  }

  /** Every configured key is already trimmed. */
  lemma ConfiguredKeysAreTrimmed(keys: string, k: string)
    requires k in KeysOf(JavaSplit(keys, ','))
    ensures Trim(k) == k
  {
    var pieces := JavaSplit(keys, ',');
    KeysOfMembership(pieces, k);
    var i :| 0 <= i < |pieces| && !IsBlank(pieces[i]) && Trim(pieces[i]) == k;
    TrimIdempotent(pieces[i]);
  }

  /** The header is compared as sent: a header that starts with a space or
      another character trim would cut is never a configured key, so a
      padded copy of a valid key is refused on a path that needs a key. */
  lemma PaddedHeaderRefused(f: ApiKeyFilter, keys: string, path: string, header: string)
    requires f.validKeys == KeysOf(JavaSplit(keys, ','))
    requires !ExemptPath(path)
    requires |header| > 0 && header[0] <= ' '
    ensures f.Decide(path, Some(header)) == Refused
  {
    if header in f.validKeys {
      ConfiguredKeysAreTrimmed(keys, header);
      var a, b := TrimShape(header);
      assert false;
    }
  }

  /** A piece holding only a control character below U+0020 that Java does
      not count as whitespace is not blank, and trims to the empty key. */
  lemma ControlCharacterKey()
    ensures KeysOf(["\U{0}"]) == {""}
  {
    var piece := "\U{0}";
    assert !IsBlank(piece) by { assert !IsWhitespace(piece[0]); }
    assert Trim(piece) == "" by { TrimEmpty(piece); }
    assert [piece][..0] == [];
    assert KeysOf([piece]) == KeysOf([]) + {Trim(piece)};
  }
}

/** The java.lang.String operations the core relies on: isBlank, trim,
    splitting on a single-character separator and joining. */
module JavaStrings {

  /** Character.isWhitespace: the Unicode space separators other than the
      no-break spaces, and the controls U+0009..U+000D and U+001C..U+001F. */
  predicate IsWhitespace(c: char)
  {
    c == ' ' || ('\t' <= c <= '\r') || ('\U{1C}' <= c <= '\U{1F}') ||
    c == '\U{1680}' || ('\U{2000}' <= c <= '\U{2006}') || ('\U{2008}' <= c <= '\U{200A}') ||
    c == '\U{2028}' || c == '\U{2029}' || c == '\U{205F}' || c == '\U{3000}'
  }

  /** String.isBlank: empty or only whitespace. */
  predicate IsBlank(s: string)
  {
    forall i :: 0 <= i < |s| ==> IsWhitespace(s[i])
  }

  /** The index of the first character from i on that is above U+0020
      (|s| when there is none). */
  function TrimStartIndex(s: string, i: nat): (a: nat)
    requires i <= |s|
    ensures i <= a <= |s|
    ensures forall k :: i <= k < a ==> s[k] <= ' '
    ensures a < |s| ==> s[a] > ' '
    decreases |s| - i
  {
    if i < |s| && s[i] <= ' ' then TrimStartIndex(s, i + 1) else i
  }

  /** The end of s[a..j] once the characters <= U+0020 at its end are cut. */
  function TrimEndIndex(s: string, a: nat, j: nat): (b: nat)
    requires a <= j <= |s|
    ensures a <= b <= j
    ensures forall k :: b <= k < j ==> s[k] <= ' '
    ensures b > a ==> s[b - 1] > ' '
    decreases j - a
  {
    if j > a && s[j - 1] <= ' ' then TrimEndIndex(s, a, j - 1) else j
  }

  /** String.trim: s without its leading and trailing characters <= U+0020. */
  function Trim(s: string): string
  {
    var a := TrimStartIndex(s, 0);
    s[a..TrimEndIndex(s, a, |s|)]
  }

  /** trim keeps the piece s[a..b] of s, cuts only characters <= U+0020,
      and leaves none at either end of what remains. */
  lemma TrimShape(s: string) returns (a: nat, b: nat)
    ensures a <= b <= |s| && Trim(s) == s[a..b]
    ensures forall i :: 0 <= i < a ==> s[i] <= ' '
    ensures forall i :: b <= i < |s| ==> s[i] <= ' '
    ensures |Trim(s)| > 0 ==> Trim(s)[0] > ' ' && Trim(s)[|Trim(s)| - 1] > ' '
  {
    a := TrimStartIndex(s, 0);
    b := TrimEndIndex(s, a, |s|);
    if a < b {
      assert s[b - 1] > ' ';
    }
  }

  /** trim is idempotent. */
  lemma TrimIdempotent(s: string)
    ensures Trim(Trim(s)) == Trim(s)
  {
    var a, b := TrimShape(s);
    var t := Trim(s);
    if |t| > 0 {
      assert TrimStartIndex(t, 0) == 0;
      assert TrimEndIndex(t, 0, |t|) == |t|;
    }
    assert t[0..|t|] == t;
  }

  /** trim leaves nothing exactly when every character is <= U+0020. */
  lemma TrimEmpty(s: string)
    ensures Trim(s) == "" <==> forall i :: 0 <= i < |s| ==> s[i] <= ' '
  {
    var a, b := TrimShape(s);
    if Trim(s) == "" {
      assert a == b;
      forall i | 0 <= i < |s|
        ensures s[i] <= ' '
      {
        if i >= a {
          assert i >= b;
        }
      }
    }
  }

  /** The pieces of s between occurrences of sep, empty ones included:
      k occurrences give k + 1 pieces. */
  function Split(s: string, sep: char): (ps: seq<string>)
    ensures |ps| > 0
  {
    if |s| == 0 then [""]
    else if s[0] == sep then [""] + Split(s[1..], sep)
    else
      var rest := Split(s[1..], sep);
      [[s[0]] + rest[0]] + rest[1..]
  }

  /** Drops the empty pieces at the end, as String.split with limit 0 does. */
  function DropTrailingEmpty(ps: seq<string>): (r: seq<string>)
    ensures |r| <= |ps| && r == ps[..|r|]
    ensures |r| > 0 ==> r[|r| - 1] != ""
    ensures forall i :: |r| <= i < |ps| ==> ps[i] == ""
  {
    if |ps| > 0 && ps[|ps| - 1] == "" then DropTrailingEmpty(ps[..|ps| - 1]) else ps
  }

  /** String.split on a one-character separator: no occurrence gives the
      string itself as the only piece, otherwise trailing empty pieces are
      dropped. */
  function JavaSplit(s: string, sep: char): seq<string>
  {
    if sep !in s then [s] else DropTrailingEmpty(Split(s, sep))
  }

  /** The parts with sep between consecutive ones (Collectors.joining). */
  function Join(parts: seq<string>, sep: char): string
  {
    if |parts| == 0 then ""
    else if |parts| == 1 then parts[0]
    else parts[0] + [sep] + Join(parts[1..], sep)
  }

  /** Splitting a + sep + b where a has no sep gives a, then the pieces of b. */
  lemma {:induction false} SplitAfterPiece(a: string, b: string, sep: char)
    requires sep !in a
    ensures Split(a + [sep] + b, sep) == [a] + Split(b, sep)
  {
    if |a| > 0 {
      assert (a + [sep] + b)[1..] == a[1..] + [sep] + b;
      SplitAfterPiece(a[1..], b, sep);
      assert [a[0]] + a[1..] == a;
    } else {
      assert (a + [sep] + b)[1..] == b;
    }
  }

  /** A string without sep is a single piece. */
  lemma {:induction false} SplitNoSep(s: string, sep: char)
    requires sep !in s
    ensures Split(s, sep) == [s]
  {
    if |s| > 0 {
      SplitNoSep(s[1..], sep);
      assert [s[0]] + s[1..] == s;
    }
  }

  /** Splitting undoes joining when no part contains the separator. */
  lemma {:induction false} SplitJoin(parts: seq<string>, sep: char)
    requires |parts| > 0
    requires forall i :: 0 <= i < |parts| ==> sep !in parts[i]
    ensures Split(Join(parts, sep), sep) == parts
  {
    if |parts| == 1 {
      SplitNoSep(parts[0], sep);
    } else {
      SplitJoin(parts[1..], sep);
      SplitAfterPiece(parts[0], Join(parts[1..], sep), sep);
    }
  }

  /** Joining n parts that do not contain sep puts exactly n - 1 separators. */
  lemma {:induction false} JoinSeparatorCount(parts: seq<string>, sep: char)
    requires |parts| > 0
    requires forall i :: 0 <= i < |parts| ==> sep !in parts[i]
    ensures multiset(Join(parts, sep))[sep] == |parts| - 1
  {
    assert multiset(parts[0])[sep] == 0;
    if |parts| > 1 {
      JoinSeparatorCount(parts[1..], sep);
      assert multiset(parts[0] + [sep] + Join(parts[1..], sep)) ==
        multiset(parts[0]) + multiset([sep]) + multiset(Join(parts[1..], sep));
    }
  }
}

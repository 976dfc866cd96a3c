/** The string handling the schemas rely on: Mongoose's `trim: true`
    option, which applies JavaScript's `String.prototype.trim`. */
module Text {
  import opened Common

  /** The characters JavaScript's `trim` removes: the WhiteSpace and
      LineTerminator code points of ECMAScript. */
  predicate IsSpace(c: char) {
    c in SpaceChars
  }

  const SpaceChars: set<char> := {
    '\t', '\n', '\U{000B}', '\U{000C}', '\r', ' ', '\U{00A0}', '\U{1680}',
    '\U{2000}', '\U{2001}', '\U{2002}', '\U{2003}', '\U{2004}', '\U{2005}',
    '\U{2006}', '\U{2007}', '\U{2008}', '\U{2009}', '\U{200A}',
    '\U{2028}', '\U{2029}', '\U{202F}', '\U{205F}', '\U{3000}', '\U{FEFF}'
  }

  predicate AllSpace(s: string) {
    forall k :: 0 <= k < |s| ==> IsSpace(s[k])
  }

  /** The number of whitespace characters `s` starts with. */
  function LeadingSpace(s: string): (n: nat)
    ensures n <= |s|
    ensures forall k :: 0 <= k < n ==> IsSpace(s[k])
    ensures n < |s| ==> !IsSpace(s[n])
  {
    if |s| > 0 && IsSpace(s[0]) then 1 + LeadingSpace(s[1..]) else 0
  }

  /** The number of whitespace characters `s` ends with. */
  function TrailingSpace(s: string): (n: nat)
    ensures n <= |s|
    ensures forall k :: |s| - n <= k < |s| ==> IsSpace(s[k])
    ensures n < |s| ==> !IsSpace(s[|s| - n - 1])
  {
    if |s| > 0 && IsSpace(s[|s| - 1]) then 1 + TrailingSpace(s[..|s| - 1]) else 0
  }

  /** `s` is `r` with only whitespace before (the first `i` characters) and after it. */
  predicate PaddedAt(s: string, r: string, i: int) {
    && 0 <= i <= |s| - |r|
    && r == s[i..i + |r|]
    && (forall k :: 0 <= k < i ==> IsSpace(s[k]))
    && (forall k :: i + |r| <= k < |s| ==> IsSpace(s[k]))
  }

  /** `s.trim()`: `s` with its leading and trailing whitespace removed. */
  function Trim(s: string): (r: string)
    ensures |r| > 0 ==> !IsSpace(r[0]) && !IsSpace(r[|r| - 1])
    ensures r == [] <==> AllSpace(s)
    ensures exists i :: PaddedAt(s, r, i)
  {
    var i := LeadingSpace(s);
    var j := TrailingSpace(s[i..]);
    var r := s[i..|s| - j];
    assert forall k :: |s| - j <= k < |s| ==> s[k] == s[i..][k - i];
    assert r == s[i..i + |r|];
    assert |r| > 0 ==> r[0] == s[i] && r[|r| - 1] == s[i..][|s| - i - j - 1];
    assert PaddedAt(s, r, i);
    r
  }

  /** Trimming twice changes nothing: a stored trimmed field is a fixpoint. */
  lemma {:induction false} TrimIdempotent(s: string)
    ensures Trim(Trim(s)) == Trim(s)
  {
    var r := Trim(s);
    if |r| > 0 {
      assert LeadingSpace(r) == 0;
      assert r[0..] == r;
      assert TrailingSpace(r) == 0;
    }
  }

  /** A required trimmed string as stored: non-empty and free of outer whitespace. */
  predicate StoredText(s: string) {
    s != [] && Trim(s) == s
  }

  /** Mongoose's `required` check on a trimmed string: present and, after
      trimming, non-empty. */
  predicate MissingText(s: Option<string>) {
    s.None? || Trim(s.value) == []
  }
}

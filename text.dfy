/** String primitives the client and the backend retrieval service rely on: substring search
    (`String.prototype.includes` in JavaScript, `in` in Python), ASCII
    lower-casing, and whitespace trimming with the whitespace sets of
    JavaScript's `trim` and Python's `str.strip`. */
module Text {

  /** `p` occurs in `s` at position `i`. */
  ghost predicate OccursAt(s: string, p: string, i: int) {
    0 <= i && i + |p| <= |s| && s[i..i + |p|] == p
  }

  /** The specification of substring containment. */
  ghost predicate IsSubstring(p: string, s: string) {
    exists i :: OccursAt(s, p, i)
  }

  /** Left-to-right substring search, as `s.includes(p)` does it. */
  function Includes(s: string, p: string): bool
    decreases |s|
  {
    if |p| > |s| then false
    else if s[..|p|] == p then true
    else Includes(s[1..], p)
  }

  lemma {:induction false} IncludesIsSubstring(s: string, p: string)
    ensures Includes(s, p) <==> IsSubstring(p, s)
    decreases |s|
  {
    if |p| > |s| {
    } else if s[..|p|] == p {
      assert OccursAt(s, p, 0);
    } else {
      IncludesIsSubstring(s[1..], p);
      if IsSubstring(p, s) {
        var i :| OccursAt(s, p, i);
        assert i != 0;
        assert s[1..][i - 1..i - 1 + |p|] == s[i..i + |p|];
        assert OccursAt(s[1..], p, i - 1);
      }
      if IsSubstring(p, s[1..]) {
        var j :| OccursAt(s[1..], p, j);
        assert s[1..][j..j + |p|] == s[j + 1..j + 1 + |p|];
        assert OccursAt(s, p, j + 1);
      }
    }
  }

  /** Every string contains itself inside any surrounding text. */
  lemma {:induction false} InfixOccurs(a: string, p: string, b: string)
    ensures IsSubstring(p, a + p + b)
  {
    var s := a + p + b;
    assert s[|a|..|a| + |p|] == p;
    assert OccursAt(s, p, |a|);
  }

  /** `toLowerCase` on one character: only ASCII capitals have a lower case
      in this model (Hangul, digits and punctuation are caseless). */
  function LowerChar(c: char): (r: char)
    ensures 'A' <= c <= 'Z' ==> r as int == c as int + 32
    ensures !('A' <= c <= 'Z') ==> r == c
    ensures !('A' <= r <= 'Z')
  {
    if 'A' <= c <= 'Z' then (c as int + 32) as char else c
  }

  function Lower(s: string): (r: string)
    ensures |r| == |s|
    ensures forall i :: 0 <= i < |s| ==> r[i] == LowerChar(s[i])
    ensures forall i :: 0 <= i < |r| ==> !('A' <= r[i] <= 'Z')
  {
    seq(|s|, i requires 0 <= i < |s| => LowerChar(s[i]))
  }

  /** Lower-casing twice is lower-casing once. */
  lemma LowerIdempotent(s: string)
    ensures Lower(Lower(s)) == Lower(s)
  {
  }

  /** WhiteSpace and LineTerminator code points of ECMAScript, the set
      `String.prototype.trim` removes. */
  predicate IsJsSpace(c: char) {
    c == '\t' || c == '\n' || c == '\U{000B}' || c == '\U{000C}' || c == '\r' ||
    c == ' ' || c == '\U{00A0}' || c == '\U{1680}' ||
    ('\U{2000}' <= c <= '\U{200A}') ||
    c == '\U{2028}' || c == '\U{2029}' || c == '\U{202F}' || c == '\U{205F}' ||
    c == '\U{3000}' || c == '\U{FEFF}'
  }

  /** The characters for which Python's `str.isspace` holds, the set
      `str.strip()` removes. */
  predicate IsPySpace(c: char) {
    ('\t' <= c <= '\r') || ('\U{001C}' <= c <= ' ') ||
    c == '\U{0085}' || c == '\U{00A0}' || c == '\U{1680}' ||
    ('\U{2000}' <= c <= '\U{200A}') ||
    c == '\U{2028}' || c == '\U{2029}' || c == '\U{202F}' || c == '\U{205F}' ||
    c == '\U{3000}'
  }

  /** Which language's whitespace set a trim uses. */
  datatype Whitespace = Js | Py

  predicate IsSpace(ws: Whitespace, c: char) {
    match ws
    case Js => IsJsSpace(c)
    case Py => IsPySpace(c)
  }

  /** Both ends trimmed of `ws` whitespace, one character at a time. */
  function Strip(s: string, ws: Whitespace): string
    decreases |s|
  {
    if s != [] && IsSpace(ws, s[0]) then Strip(s[1..], ws)
    else if s != [] && IsSpace(ws, s[|s| - 1]) then Strip(s[..|s| - 1], ws)
    else s
  }

  /** `r` is the slice `s[lo..hi]` of `s`, everything before `lo` and from
      `hi` on is whitespace, and `r` neither starts nor ends with
      whitespace. These conditions fix `r` (see StrippedUnique): `r` is `s`
      stripped. */
  ghost predicate StrippedAt(s: string, r: string, ws: Whitespace, lo: int, hi: int) {
    0 <= lo <= hi <= |s| && r == s[lo..hi] &&
    (forall i :: 0 <= i < lo ==> IsSpace(ws, s[i])) &&
    (forall i :: hi <= i < |s| ==> IsSpace(ws, s[i])) &&
    (r != [] ==> !IsSpace(ws, r[0]) && !IsSpace(ws, r[|r| - 1]))
  }

  /** A leading space in front of a stripped slice moves the slice by one. */
  /** At most one string is `s` stripped: whatever cut points witness
      them, two stripped forms of the same string are equal. */
  lemma StrippedUnique(s: string, r1: string, r2: string, ws: Whitespace,
                       lo1: int, hi1: int, lo2: int, hi2: int)
    requires StrippedAt(s, r1, ws, lo1, hi1) && StrippedAt(s, r2, ws, lo2, hi2)
    ensures r1 == r2
  {
    if r1 != [] && r2 != [] {
      assert s[lo1] == r1[0] && s[lo2] == r2[0];
      assert s[hi1 - 1] == r1[|r1| - 1] && s[hi2 - 1] == r2[|r2| - 1];
    }
  }

  lemma StrippedAfterLeadingSpace(s: string, r: string, ws: Whitespace, lo: int, hi: int)
    requires s != [] && IsSpace(ws, s[0])
    requires StrippedAt(s[1..], r, ws, lo, hi)
    ensures StrippedAt(s, r, ws, lo + 1, hi + 1)
  {
    assert s[1..][lo..hi] == s[lo + 1..hi + 1];
    forall i | 0 <= i < lo + 1 ensures IsSpace(ws, s[i]) {
      if i > 0 { assert s[i] == s[1..][i - 1]; }
    }
    forall i | hi + 1 <= i < |s| ensures IsSpace(ws, s[i]) {
      assert s[i] == s[1..][i - 1];
    }
  }

  /** A trailing space after a stripped slice leaves the slice in place. */
  lemma StrippedBeforeTrailingSpace(s: string, r: string, ws: Whitespace, lo: int, hi: int)
    requires s != [] && !IsSpace(ws, s[0]) && IsSpace(ws, s[|s| - 1])
    requires StrippedAt(s[..|s| - 1], r, ws, lo, hi)
    ensures StrippedAt(s, r, ws, lo, hi)
  {
    assert s[..|s| - 1][lo..hi] == s[lo..hi];
    assert s[..|s| - 1][0] == s[0];
    forall i | hi <= i < |s| ensures IsSpace(ws, s[i]) {
      if i < |s| - 1 { assert s[i] == s[..|s| - 1][i]; }
    }
  }

  /** `Strip` meets StrippedAt: it is the slice of `s` between the first
      and the last non-whitespace character. */
  lemma {:induction false} StripSpec(s: string, ws: Whitespace)
    ensures exists lo, hi :: StrippedAt(s, Strip(s, ws), ws, lo, hi)
    decreases |s|
  {
    var r := Strip(s, ws);
    if s != [] && IsSpace(ws, s[0]) {
      StripSpec(s[1..], ws);
      var lo, hi :| StrippedAt(s[1..], r, ws, lo, hi);
      StrippedAfterLeadingSpace(s, r, ws, lo, hi);
    } else if s != [] && IsSpace(ws, s[|s| - 1]) {
      StripSpec(s[..|s| - 1], ws);
      var lo, hi :| StrippedAt(s[..|s| - 1], r, ws, lo, hi);
      StrippedBeforeTrailingSpace(s, r, ws, lo, hi);
    } else {
      assert StrippedAt(s, s, ws, 0, |s|);
    }
  }

  /** Stripping leaves nothing exactly when every character is whitespace. */
  lemma StripEmptyIffBlank(s: string, ws: Whitespace)
    ensures Strip(s, ws) == [] <==> forall i :: 0 <= i < |s| ==> IsSpace(ws, s[i])
  {
    StripSpec(s, ws);
    var r := Strip(s, ws);
    var lo, hi :| StrippedAt(s, r, ws, lo, hi);
    if r != [] {
      assert r[0] == s[lo];
    }
  }

  /** `s.trim()` in JavaScript. */
  function JsTrim(s: string): string {
    Strip(s, Js)
  }

  /** `s.strip()` in Python. */
  function PyStrip(s: string): string {
    Strip(s, Py)
  }
}

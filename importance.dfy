/** The glossary importance badge of the client (`renderImportanceBadge`):
    a free-text importance string is lower-cased and sorted into one of
    three buckets by a priority-ordered keyword search over Korean and
    English markers. */
module Importance {
  import opened Wrappers
  import opened Text

  datatype Label = High | Mid | Low

  /** Checked first: "매우" (very), "high", "핵심" (core), "most". */
  const HighMarkers: seq<string> := ["매우", "high", "핵심", "most"]

  /** Checked only when no High marker is present: "중요" (important),
      "mid", "필수" (required), "important". */
  const MidMarkers: seq<string> := ["중요", "mid", "필수", "important"]

  /** `(rawImportance || "").toString().toLowerCase()`: a missing value
      (null, undefined) becomes the empty string. */
  function Normalize(raw: Option<string>): (text: string)
    ensures raw.None? ==> text == ""
    ensures raw.Some? ==> text == Lower(raw.value) && |text| == |raw.value|
    ensures forall i :: 0 <= i < |text| ==> !('A' <= text[i] <= 'Z')
  {
    match raw
    case None => ""
    case Some(s) => Lower(s)
  }

  /** Some marker of the table occurs in the text. */
  ghost predicate HasMarker(text: string, markers: seq<string>) {
    exists k :: 0 <= k < |markers| && IsSubstring(markers[k], text)
  }

  /** The chain `text.includes(m0) || text.includes(m1) || ...`. */
  function IncludesAny(text: string, markers: seq<string>): bool {
    if markers == [] then false
    else Includes(text, markers[0]) || IncludesAny(text, markers[1..])
  }

  lemma {:induction false} IncludesAnyIsHasMarker(text: string, markers: seq<string>)
    ensures IncludesAny(text, markers) <==> HasMarker(text, markers)
  {
    if markers != [] {
      IncludesIsSubstring(text, markers[0]);
      IncludesAnyIsHasMarker(text, markers[1..]);
      if HasMarker(text, markers) && !IsSubstring(markers[0], text) {
        var k :| 0 <= k < |markers| && IsSubstring(markers[k], text);
        assert markers[1..][k - 1] == markers[k];
      }
      if HasMarker(text, markers[1..]) {
        var k :| 0 <= k < |markers[1..]| && IsSubstring(markers[1..][k], text);
        assert markers[k + 1] == markers[1..][k];
      }
    }
  }

  /** The badge label: total (the default is Low), High takes priority over
      Mid, and matching is on the lower-cased text. */
  function Classify(raw: Option<string>): (badge: Label)
    ensures badge == High <==> HasMarker(Normalize(raw), HighMarkers)
    ensures badge == Mid <==>
      !HasMarker(Normalize(raw), HighMarkers) && HasMarker(Normalize(raw), MidMarkers)
    ensures badge == Low <==>
      !HasMarker(Normalize(raw), HighMarkers) && !HasMarker(Normalize(raw), MidMarkers)
  {
    var text := Normalize(raw);
    IncludesAnyIsHasMarker(text, HighMarkers);
    IncludesAnyIsHasMarker(text, MidMarkers);
    if IncludesAny(text, HighMarkers) then High
    else if IncludesAny(text, MidMarkers) then Mid
    else Low
  }

  /** A missing importance value is Low: no marker fits in the empty string. */
  lemma {:induction false} MissingIsLow()
    ensures Classify(None) == Low
  {
    forall k | 0 <= k < |HighMarkers| ensures !IsSubstring(HighMarkers[k], "") {
      assert |HighMarkers[k]| > 0;
    }
    forall k | 0 <= k < |MidMarkers| ensures !IsSubstring(MidMarkers[k], "") {
      assert |MidMarkers[k]| > 0;
    }
  }

  /** High wins: a High marker anywhere in the lower-cased text gives High,
      whatever Mid markers the text also holds. */
  lemma HighWins(s: string, before: string, marker: string, after: string)
    requires marker in HighMarkers
    requires Lower(s) == before + marker + after
    ensures Classify(Some(s)) == High
  {
    InfixOccurs(before, marker, after);
    var k :| 0 <= k < |HighMarkers| && HighMarkers[k] == marker;
  }

  /** A Mid marker gives Mid exactly when no High marker is present. */
  lemma MidUnlessHigh(s: string, before: string, marker: string, after: string)
    requires marker in MidMarkers
    requires Lower(s) == before + marker + after
    ensures Classify(Some(s)) == Mid <==> !HasMarker(Lower(s), HighMarkers)
    ensures Classify(Some(s)) != Low
  {
    InfixOccurs(before, marker, after);
    var k :| 0 <= k < |MidMarkers| && MidMarkers[k] == marker;
  }

  /** Case-insensitivity: a string and its lower-cased form get the same label. */
  lemma CaseInsensitive(s: string)
    ensures Classify(Some(s)) == Classify(Some(Lower(s)))
  {
    LowerIdempotent(s);
  }

  /** Upper-case markers are recognised: "HIGH" and "Most" are High. */
  lemma UpperCaseHigh()
    ensures Classify(Some("HIGH")) == High
    ensures Classify(Some("Most relevant")) == High
  {
    assert Lower("HIGH") == "" + "high" + "";
    HighWins("HIGH", "", "high", "");
    assert Lower("Most relevant") == "" + "most" + " relevant";
    HighWins("Most relevant", "", "most", " relevant");
  }

  /** A text holding both a Mid and a High marker is High: "매우 중요"
      ("very important"). */
  lemma VeryImportantIsHigh()
    ensures Classify(Some("매우 중요")) == High
  {
    assert Lower("매우 중요") == "" + "매우" + " 중요";
    HighWins("매우 중요", "", "매우", " 중요");
  }

  /** The same in English: "Most important" is High, not Mid. */
  lemma MostImportantIsHigh()
    ensures Classify(Some("Most important")) == High
  {
    assert Lower("Most important") == "" + "most" + " important";
    HighWins("Most important", "", "most", " important");
  }

  /** A string holding a character that `s` lacks is not a substring of `s`. */
  lemma AbsentCharNotSubstring(s: string, p: string, j: int)
    requires 0 <= j < |p| && p[j] !in s
    ensures !IsSubstring(p, s)
  {
    forall i | 0 <= i && i + |p| <= |s| ensures !OccursAt(s, p, i) {
      assert s[i..i + |p|][j] == s[i + j];
    }
  }

  /** "very important" holds none of the High markers: each of them has a
      character the text lacks. */
  lemma {:induction false} NoHighMarkerInVeryImportant()
    ensures !HasMarker("very important", HighMarkers)
  {
    var text := "very important";
    assert '매' !in text && 'h' !in text && '핵' !in text && 's' !in text;
    AbsentCharNotSubstring(text, HighMarkers[0], 0);
    AbsentCharNotSubstring(text, HighMarkers[1], 0);
    AbsentCharNotSubstring(text, HighMarkers[2], 0);
    AbsentCharNotSubstring(text, HighMarkers[3], 2);
  }

  /** Only the Korean "매우" marks "very": the English "Very important" has
      no High marker and is Mid. */
  lemma EnglishVeryImportantIsMid()
    ensures Classify(Some("Very important")) == Mid
  {
    assert Lower("Very important") == "very important" == "very " + "important" + "";
    NoHighMarkerInVeryImportant();
    MidUnlessHigh("Very important", "very ", "important", "");
  }

  /** The text the badge shows for a label. */
  function LabelText(badge: Label): (shown: string)
    ensures badge == High ==> shown == "High"
    ensures badge == Mid ==> shown == "Mid"
    ensures badge == Low ==> shown == "Low"
  {
    match badge
    case High => "High"
    case Mid => "Mid"
    case Low => "Low"
  }

  /** "mid" holds none of the High markers. */
  lemma {:induction false} NoHighMarkerInMid()
    ensures !HasMarker("mid", HighMarkers)
  {
    AbsentCharNotSubstring("mid", HighMarkers[0], 0);
    AbsentCharNotSubstring("mid", HighMarkers[1], 0);
    AbsentCharNotSubstring("mid", HighMarkers[2], 0);
    AbsentCharNotSubstring("mid", HighMarkers[3], 1);
  }

  /** The shown "Mid" is Mid again. */
  lemma MidLabelIsMid()
    ensures Classify(Some("Mid")) == Mid
  {
    assert Lower("Mid") == "mid" == "" + "mid" + "";
    NoHighMarkerInMid();
    MidUnlessHigh("Mid", "", "mid", "");
  }

  /** "low" holds no marker of either table. */
  lemma {:induction false} NoMarkerInLow()
    ensures !HasMarker("low", HighMarkers) && !HasMarker("low", MidMarkers)
  {
    AbsentCharNotSubstring("low", HighMarkers[0], 0);
    AbsentCharNotSubstring("low", HighMarkers[1], 0);
    AbsentCharNotSubstring("low", HighMarkers[2], 0);
    AbsentCharNotSubstring("low", HighMarkers[3], 2);
    AbsentCharNotSubstring("low", MidMarkers[0], 0);
    AbsentCharNotSubstring("low", MidMarkers[1], 0);
    AbsentCharNotSubstring("low", MidMarkers[2], 0);
    AbsentCharNotSubstring("low", MidMarkers[3], 0);
  }

  /** Classification is idempotent: the shown label, classified again,
      gives the same label. */
  lemma ClassifyIdempotent(raw: Option<string>)
    ensures Classify(Some(LabelText(Classify(raw)))) == Classify(raw)
  {
    match Classify(raw)
    case High =>
      assert Lower("High") == "" + "high" + "";
      HighWins("High", "", "high", "");
    case Mid =>
      MidLabelIsMid();
    case Low =>
      assert Normalize(Some("Low")) == "low";
      NoMarkerInLow();
  }
}

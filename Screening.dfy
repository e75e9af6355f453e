/** What the standalone screening scripts share: the goods description taken from field 45A
    (Description of Goods and/or Services) of an MT 700 Issue of a Documentary Credit message,
    the test for a goods section, and the choice of the best-matching control-list item. */
module Screening {
  import opened Wrappers
  import opened Text

  const NoGoodsSentinel: string := "[NO GOODS DESCRIPTION FOUND]"
  const NoTextSentinel: string := "[NO TEXT FOUND]"
  const GoodsTag: string := "45A:"

  // ----------------------------------------------------------------------------------------------
  // Field 45A
  // ----------------------------------------------------------------------------------------------

  /** `\n\d{2}[A-Z]:` at position p: a newline and the tag of the next MT 700 field. */
  predicate TagAt(s: string, p: int) {
    0 <= p && p + 5 <= |s| && s[p] == '\n' && IsDigit(s[p + 1]) && IsDigit(s[p + 2]) &&
    IsUpper(s[p + 3]) && s[p + 4] == ':'
  }

  /** Where the lazy group `(.*?)` stops: the first field tag at or after b, or the end. */
  function FieldEnd(s: string, b: nat): (e: nat)
    requires b <= |s|
    ensures b <= e <= |s|
    ensures e == |s| || TagAt(s, e)
    ensures forall q :: b <= q < e ==> !TagAt(s, q)
    decreases |s| - b
  {
    if b == |s| || TagAt(s, b) then b else FieldEnd(s, b + 1)
  }

  /** The group of `45A:\s*(.*?)(?:\n\d{2}[A-Z]:|$)` under re.search with DOTALL: it starts after
      the first "45A:" and all the whitespace that follows, and ends before the next field tag or
      at the end of the text. (`$` also matches before a final newline; that newline is
      whitespace, which the caller's collapse and strip remove either way.) */
  function GoodsSpan(t: string): (r: Option<(nat, nat)>)
    ensures r.None? <==> FindFirst(t, GoodsTag).None?
    ensures r.Some? ==>
      var i := FindFirst(t, GoodsTag).value;
      var (b, e) := r.value;
      i + |GoodsTag| <= b <= e <= |t| &&
      IsBlank(t[i + |GoodsTag|..b]) && (b == |t| || !IsSpace(t[b])) &&
      (e == |t| || TagAt(t, e)) && (forall q :: b <= q < e ==> !TagAt(t, q))
  {
    match FindFirst(t, GoodsTag)
    case None => None
    case Some(i) =>
      var rest := t[i + |GoodsTag|..];
      var k := |rest| - |TrimStart(rest)|;
      var b := i + |GoodsTag| + k;
      assert IsBlank(t[i + |GoodsTag|..b]) by {
        assert t[i + |GoodsTag|..b] == rest[..k];
      }
      assert b < |t| ==> !IsSpace(t[b]) by {
        if b < |t| {
          assert t[b] == rest[k];
        }
      }
      Some((b, FieldEnd(t, b)))
  }

  /** Whitespace is single spaces, never two in a row, and not at either end. */
  predicate SingleSpaced(r: string) {
    (forall i :: 0 <= i < |r| && IsSpace(r[i]) ==> r[i] == ' ') &&
    (forall i :: 0 <= i < |r| - 1 ==> !(IsSpace(r[i]) && IsSpace(r[i + 1]))) &&
    (r == [] || (!IsSpace(r[0]) && !IsSpace(r[|r| - 1])))
  }

  /** `re.sub(r"\s+", " ", s).strip()` */
  function Normalize(s: string): (r: string)
    ensures SingleSpaced(r)
  {
    var c := CollapseSpaces(s);
    assert SingleSpaced(Trim(c)) by {
      var a, b := TrimIsSlice(c);
      assert forall i :: 0 <= i < b - a ==> Trim(c)[i] == c[a + i];
    }
    Trim(c)
  }

  /** extract_goods_description: the normalised text of field 45A, or the sentinel when the
      message has no "45A:" (the tag itself is matched case-sensitively). */
  function ExtractGoodsDescription(t: string): (r: string)
    ensures !Contains(t, GoodsTag) ==> r == NoGoodsSentinel
    ensures Contains(t, GoodsTag) ==>
      var (b, e) := GoodsSpan(t).value; r == Normalize(t[b..e])
  {
    match GoodsSpan(t)
    case None =>
      assert !Contains(t, GoodsTag);
      NoGoodsSentinel
    case Some((b, e)) => Normalize(t[b..e])
  }

  /** The regex `description\s+of\s+goods` at position i of a lower-cased text. */
  predicate DescriptionOfGoodsAt(s: string, i: int) {
    OccursAt(s, "description", i) &&
    var a := s[i + 11..];
    |a| > 0 && IsSpace(a[0]) &&
    var b := TrimStart(a);
    |b| >= 2 && b[..2] == "of" &&
    var c := b[2..];
    |c| > 0 && IsSpace(c[0]) &&
    var d := TrimStart(c);
    |d| >= 5 && d[..5] == "goods"
  }

  /** The phrase written with single spaces matches the pattern. */
  lemma SingleSpacedPhrase(s: string)
    ensures Contains(s, "description of goods") ==> exists i | 0 <= i <= |s| :: DescriptionOfGoodsAt(s, i)
  {
    if Contains(s, "description of goods") {
      var i :| 0 <= i <= |s| - 20 && OccursAt(s, "description of goods", i);
      var phrase := "description of goods";
      assert forall k :: 0 <= k < 20 ==> s[i + k] == phrase[k] by {
        assert s[i..i + 20] == phrase;
        forall k | 0 <= k < 20 ensures s[i + k] == phrase[k] { assert s[i..i + 20][k] == s[i + k]; }
      }
      assert s[i..i + 11] == "description" by { assert s[i..i + 11] == s[i..i + 20][..11]; }
      assert phrase[11] == ' ' && phrase[12] == 'o' && phrase[13] == 'f' && phrase[14] == ' ' && phrase[15] == 'g';
      assert s[i + 11] == ' ' && s[i + 12] == 'o' && s[i + 13] == 'f' && s[i + 14] == ' ' && s[i + 15] == 'g';
      assert s[i + 15..i + 20] == "goods" by { assert s[i + 15..i + 20] == s[i..i + 20][15..]; }
      var a := s[i + 11..];
      assert a[0] == ' ' && a[1..] == s[i + 12..] && s[i + 12..][0] == 'o';
      assert TrimStart(a) == s[i + 12..];
      assert s[i + 12..][..2] == "of";
      var c := s[i + 14..];
      assert c == s[i + 12..][2..];
      assert c[0] == ' ' && c[1..] == s[i + 15..] && s[i + 15..][0] == 'g';
      assert TrimStart(c) == s[i + 15..];
      assert s[i + 15..][..5] == s[i + 15..i + 20];
      assert DescriptionOfGoodsAt(s, i);
    }
  }

  /** A goods section is present: "45A:" or "description of goods" (with any whitespace between
      the words) occurs, ignoring case. */
  function MentionsGoods(t: string): (r: bool)
    ensures r <==> Contains(ToLower(t), "45a:") || exists i | 0 <= i <= |t| :: DescriptionOfGoodsAt(ToLower(t), i)
    ensures Contains(ToLower(t), "45a:") || Contains(ToLower(t), "description of goods") ==> r
    ensures r && !ContainsIgnoringCase(t, GoodsTag) ==> Contains(ToLower(t), "description")
  {
    assert ToLower(GoodsTag) == "45a:";
    SingleSpacedPhrase(ToLower(t));
    ContainsIgnoringCase(t, GoodsTag) ||
    exists i | 0 <= i <= |t| :: DescriptionOfGoodsAt(ToLower(t), i)
  }

  /** The text screened for a page or a document: the 45A description, or the whole text when
      extraction gives the sentinel. */
  function GoodsText(t: string): (r: string)
    ensures ExtractGoodsDescription(t) == NoGoodsSentinel ==> r == t
    ensures ExtractGoodsDescription(t) != NoGoodsSentinel ==> r == ExtractGoodsDescription(t) && SingleSpaced(r)
  {
    var g := ExtractGoodsDescription(t);
    if g == NoGoodsSentinel then t else g
  }

  /** The goods test ignores case but the 45A extraction does not: a message whose only tag is
      written "45a:" is screened, and then on its whole text. */
  lemma LowerCaseTagScreensWholeText(t: string)
    requires Contains(t, "45a:") && !Contains(t, GoodsTag)
    ensures MentionsGoods(t) && GoodsText(t) == t
  {
    var i :| 0 <= i <= |t| - 4 && OccursAt(t, "45a:", i);
    var l := ToLower(t);
    assert l[i..i + 4] == ToLower(t[i..i + 4]);
    assert ToLower("45a:") == "45a:" && ToLower(GoodsTag) == "45a:";
    assert OccursAt(l, ToLower(GoodsTag), i);
  }

  // ----------------------------------------------------------------------------------------------
  // Best match
  // ----------------------------------------------------------------------------------------------

  /** The loop `if ratio > best_score: best_score, best_match = ratio, item` from best_score 0.0
      and no match, over the scores in order. */
  function BestOf(scores: seq<real>): (r: (Option<nat>, real)) {
    if |scores| == 0 then (None, 0.0)
    else
      var prev := BestOf(scores[..|scores| - 1]);
      if scores[|scores| - 1] > prev.1 then (Some(|scores| - 1), scores[|scores| - 1]) else prev
  }

  /** The best match is the FIRST item with the highest score, and only a positive score is ever
      a match: with no item, or no item above 0.0, there is no match and the score is 0.0. */
  lemma {:induction false} BestOfIsFirstMaximum(scores: seq<real>)
    ensures var (k, m) := BestOf(scores);
      m >= 0.0 &&
      (forall j :: 0 <= j < |scores| ==> scores[j] <= m) &&
      (k.None? <==> forall j :: 0 <= j < |scores| ==> scores[j] <= 0.0) &&
      (k.None? ==> m == 0.0) &&
      (k.Some? ==> k.value < |scores| && scores[k.value] == m && forall j :: 0 <= j < k.value ==> scores[j] < m)
  {
    if |scores| > 0 {
      var n := |scores| - 1;
      BestOfIsFirstMaximum(scores[..n]);
      assert forall j :: 0 <= j < n ==> scores[..n][j] == scores[j];
    }
  }

  /** A row of the ControlItems table; its Description may be NULL. */
  datatype ControlItem = ControlItem(itemId: string, sourceList: string, controlCode: string,
                                     description: Option<string>)

  /** Every row has a Description, so `desc.lower()` never meets None. */
  predicate AllDescribed(items: seq<ControlItem>) {
    forall i :: 0 <= i < |items| ==> items[i].description.Some?
  }

  /** What `None.lower()` raises. */
  const NullDescriptionError: string := "AttributeError: 'NoneType' object has no attribute 'lower'"

  /** The screening verdict; the score is kept unrounded. */
  datatype MatchInfo = MatchInfo(isControlled: bool, matchItem: Option<string>, matchScore: real,
                                 controlCode: Option<string>)

  /** `SequenceMatcher(None, text.lower(), desc.lower()).ratio()` for each item, with the ratio
      itself left as a parameter. */
  function Scores(text: string, items: seq<ControlItem>, ratio: (string, string) -> real): (r: seq<real>)
    requires AllDescribed(items)
    ensures |r| == |items|
    ensures forall i :: 0 <= i < |items| ==> r[i] == ratio(ToLower(text), ToLower(items[i].description.value))
  {
    seq(|items|, i requires 0 <= i < |items| => ratio(ToLower(text), ToLower(items[i].description.value)))
  }

  /** The verdict for a best match: controlled iff the best score reaches the threshold. */
  function Verdict(items: seq<ControlItem>, best: (Option<nat>, real), threshold: real): (m: MatchInfo)
    requires best.0.Some? ==> best.0.value < |items|
    ensures m.isControlled <==> best.1 >= threshold
    ensures m.matchScore == best.1
    ensures best.0.None? ==> m.matchItem.None? && m.controlCode.None?
    ensures best.0.Some? ==>
      m.matchItem == items[best.0.value].description && m.controlCode == Some(items[best.0.value].controlCode)
  {
    match best.0
    case None => MatchInfo(best.1 >= threshold, None, best.1, None)
    case Some(k) => MatchInfo(best.1 >= threshold, items[k].description, best.1, Some(items[k].controlCode))
  }

  /** find_best_match: the verdict for the first item with the highest positive score. A row
      whose Description is NULL raises AttributeError when the loop reaches it. */
  method FindBestMatch(text: string, items: seq<ControlItem>, threshold: real, ratio: (string, string) -> real)
    returns (m: Result<MatchInfo, string>)
    ensures m.Err? <==> !AllDescribed(items)
    ensures m.Err? ==> m.error == NullDescriptionError
    ensures m.Ok? ==> AllDescribed(items)
    ensures m.Ok? ==>
      var best := BestOf(Scores(text, items, ratio));
      (best.0.Some? ==> best.0.value < |items|) && m.value == Verdict(items, best, threshold)
  {
    var best: Option<nat> := None;
    var bestScore := 0.0;
    var i := 0;
    while i < |items|
      invariant 0 <= i <= |items|
      invariant AllDescribed(items[..i])
      invariant (best, bestScore) == BestOf(Scores(text, items[..i], ratio))
      invariant best.Some? ==> best.value < i
    {
      var desc := items[i].description;
      if desc.None? {
        return Err(NullDescriptionError);
      }
      var score := ratio(ToLower(text), ToLower(desc.value));
      assert Scores(text, items[..i + 1], ratio)[..i] == Scores(text, items[..i], ratio);
      if score > bestScore {
        bestScore := score;
        best := Some(i);
      }
      i := i + 1;
    }
    assert items[..|items|] == items;
    m := Ok(Verdict(items, (best, bestScore), threshold));
  }
}

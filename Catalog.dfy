/** The cataloguing script: each grouped form folder of a document is matched by name against
    the active master documents and sub-documents, and one catalogue record is written for it.
    The database, the folders and the name similarity are parameters or left out. */
module Catalog {
  import opened Wrappers
  import opened Text
  import opened Screening

  // ----------------------------------------------------------------------------------------------
  // Folder names
  // ----------------------------------------------------------------------------------------------

  /** str.title() on ASCII: a letter is upper-cased when it starts a run of letters and
      lower-cased otherwise; every other character is kept. */
  function TitleCase(s: string): (r: string)
    ensures |r| == |s|
    ensures forall i :: 0 <= i < |s| ==> (IsSpace(r[i]) <==> IsSpace(s[i]))
    ensures forall i :: 0 <= i < |s| && !IsLetter(s[i]) ==> r[i] == s[i]
    ensures forall i :: 0 <= i < |s| && IsLetter(s[i]) ==>
      r[i] == (if i == 0 || !IsLetter(s[i - 1]) then UpperChar(s[i]) else LowerChar(s[i]))
  {
    seq(|s|, i requires 0 <= i < |s| =>
      if !IsLetter(s[i]) then s[i]
      else if i == 0 || !IsLetter(s[i - 1]) then UpperChar(s[i])
      else LowerChar(s[i]))
  }

  /** Title-casing twice is title-casing once: which characters are letters does not change. */
  lemma TitleCaseIdempotent(s: string)
    ensures TitleCase(TitleCase(s)) == TitleCase(s)
  {
    var t := TitleCase(s);
    forall i | 0 <= i < |s| && IsLetter(s[i])
      ensures TitleCase(t)[i] == t[i]
    {
      assert i > 0 ==> (IsLetter(t[i - 1]) <==> IsLetter(s[i - 1]));
      if i == 0 || !IsLetter(s[i - 1]) {
        assert UpperChar(UpperChar(s[i])) == UpperChar(s[i]);
      } else {
        assert LowerChar(LowerChar(s[i])) == LowerChar(s[i]);
      }
    }
  }

  /** folder_name_to_readable: underscores become spaces, the result is trimmed and
      title-cased; so it holds no underscore and has no whitespace at either end. Ignoring case
      it is the trimmed, spaced name, and a letter is upper case exactly when it starts a word. */
  function FolderNameToReadable(name: string): (r: string)
    ensures '_' !in r
    ensures IsTrimmed(r)
    ensures var t := Trim(ReplaceChar(name, '_', ' '));
      |r| == |t| && ToLower(r) == ToLower(t) &&
      forall i :: 0 <= i < |t| && IsLetter(t[i]) ==> (IsUpper(r[i]) <==> i == 0 || !IsLetter(t[i - 1]))
  {
    var spaced := ReplaceChar(name, '_', ' ');
    var t := Trim(spaced);
    assert '_' !in t by {
      TrimKeepsOut(spaced, '_');
    }
    var r := TitleCase(t);
    forall i | 0 <= i < |t| ensures LowerChar(r[i]) == LowerChar(t[i]) {
      if IsLetter(t[i]) && (i == 0 || !IsLetter(t[i - 1])) && !IsUpper(t[i]) {
        LowerOfUpper(t[i]);
      }
    }
    r
  }

  /** The docstring's own example. */
  lemma BillOfLadingReadable()
    ensures FolderNameToReadable("bill_of_lading") == "Bill Of Lading"
  {
    var spaced := ReplaceChar("bill_of_lading", '_', ' ');
    assert spaced == "bill of lading";
    TrimOfTrimmed(spaced);
    var r := TitleCase(spaced);
    var want := "Bill Of Lading";
    forall i | 0 <= i < |want| ensures r[i] == want[i] {
      assert IsLetter(spaced[i]) <==> i != 4 && i != 7;
    }
  }

  // ----------------------------------------------------------------------------------------------
  // Candidates and the match
  // ----------------------------------------------------------------------------------------------

  /** A row of MasterDocuments or TF_SubDocuments; either column may be NULL. The id is kept as
      the text str() gives it. */
  datatype CandidateDoc = CandidateDoc(id: Option<string>, name: Option<string>)

  /** get_master_documents: the active master documents, then the active sub-documents. */
  method GetMasterDocuments(master: seq<CandidateDoc>, sub: seq<CandidateDoc>) returns (all: seq<CandidateDoc>)
    ensures all == master + sub
  {
    all := [];
    var i := 0;
    while i < |master|
      invariant 0 <= i <= |master|
      invariant all == master[..i]
    {
      all := all + [master[i]];
      i := i + 1;
    }
    assert master[..|master|] == master;
    var j := 0;
    while j < |sub|
      invariant 0 <= j <= |sub|
      invariant all == master + sub[..j]
    {
      all := all + [sub[j]];
      j := j + 1;
    }
    assert sub[..|sub|] == sub;
  }

  predicate AllNamed(docs: seq<CandidateDoc>) {
    forall i :: 0 <= i < |docs| ==> docs[i].name.Some?
  }

  /** The folder name compared: underscores become spaces and it is lower-cased (not trimmed). */
  function CleanFolderName(folderName: string): (r: string)
    ensures |r| == |folderName| && HasNoUpper(r)
    ensures '_' !in r
  {
    var r := ToLower(ReplaceChar(folderName, '_', ' '));
    assert forall i :: 0 <= i < |r| ==> r[i] != '_';
    r
  }

  /** The similarity of the cleaned folder name to each lower-cased candidate name. */
  function CatalogScores(folderName: string, docs: seq<CandidateDoc>, ratio: (string, string) -> real): (r: seq<real>)
    requires AllNamed(docs)
    ensures |r| == |docs|
  {
    seq(|docs|, i requires 0 <= i < |docs| => ratio(CleanFolderName(folderName), ToLower(docs[i].name.value)))
  }

  /** With the candidates listed master documents first, a master document that reaches the best
      score is preferred over every sub-document with that score. */
  lemma MasterWinsTies(master: seq<CandidateDoc>, sub: seq<CandidateDoc>, scores: seq<real>, j: nat)
    requires |scores| == |master| + |sub|
    requires j < |master| && scores[j] == BestOf(scores).1 && BestOf(scores).0.Some?
    ensures BestOf(scores).0.value < |master|
  {
    BestOfIsFirstMaximum(scores);
  }

  const MinCatalogScore := 0.3

  /** The record written for a folder. The ids are the parsed UUIDs (None when not a UUID). */
  datatype CatalogRecord = CatalogRecord(sessionUuid: Option<string>, documentUuid: Option<string>,
                                         groupedFormType: string, matchedName: Option<string>,
                                         matchedId: Option<string>, matchedUuid: Option<string>,
                                         confidence: real)

  /** The record for a best match: a score below 0.3 clears the matched name and id, but the
      score is stored either way. */
  function RecordOf(sessionId: Option<string>, documentId: Option<string>, folderName: string,
                    docs: seq<CandidateDoc>, best: (Option<nat>, real)): (r: CatalogRecord)
    requires best.0.Some? ==> best.0.value < |docs|
    ensures r.confidence == best.1 && r.groupedFormType == folderName
    ensures r.sessionUuid == SafeUuid(sessionId) && r.documentUuid == SafeUuid(documentId)
    ensures best.1 < MinCatalogScore || best.0.None? ==> r.matchedName.None? && r.matchedId.None?
    ensures best.1 >= MinCatalogScore && best.0.Some? ==>
      r.matchedName == docs[best.0.value].name && r.matchedId == docs[best.0.value].id
    ensures r.matchedUuid == SafeUuid(r.matchedId)
  {
    var keep := best.0.Some? && best.1 >= MinCatalogScore;
    var name := if keep then docs[best.0.value].name else None;
    var id := if keep then docs[best.0.value].id else None;
    CatalogRecord(SafeUuid(sessionId), SafeUuid(documentId), folderName, name, id, SafeUuid(id), best.1)
  }

  /** One more named candidate is one more step of the best-score loop. */
  lemma CatalogScoresStep(folderName: string, docs: seq<CandidateDoc>, ratio: (string, string) -> real, i: nat)
    requires i < |docs| && AllNamed(docs[..i]) && docs[i].name.Some?
    ensures AllNamed(docs[..i + 1])
    ensures var score := ratio(CleanFolderName(folderName), ToLower(docs[i].name.value));
      var prev := BestOf(CatalogScores(folderName, docs[..i], ratio));
      BestOf(CatalogScores(folderName, docs[..i + 1], ratio)) == if score > prev.1 then (Some(i), score) else prev
  {
    assert docs[..i + 1][..i] == docs[..i];
    var next := CatalogScores(folderName, docs[..i + 1], ratio);
    assert next[..i] == CatalogScores(folderName, docs[..i], ratio);
  }

  /** catalog_grouped_text: the first candidate with the highest score is the match (a score of
      0.0 never matches). A candidate whose name is NULL makes the lower-casing raise; otherwise
      the record is the one for the best match. */
  method CatalogGroupedText(sessionId: Option<string>, documentId: Option<string>, folderName: string,
                            docs: seq<CandidateDoc>, ratio: (string, string) -> real)
    returns (r: Result<CatalogRecord, string>)
    ensures r.Err? <==> !AllNamed(docs)
    ensures r.Ok? ==>
      var best := BestOf(CatalogScores(folderName, docs, ratio));
      (best.0.Some? ==> best.0.value < |docs|) &&
      r.value == RecordOf(sessionId, documentId, folderName, docs, best)
  {
    var clean := ToLower(ReplaceChar(folderName, '_', ' '));
    assert clean == CleanFolderName(folderName);
    var bestName: Option<string> := None;
    var bestId: Option<string> := None;
    var bestScore := 0.0;
    ghost var best: Option<nat> := None;
    var i := 0;
    while i < |docs|
      invariant 0 <= i <= |docs|
      invariant AllNamed(docs[..i])
      invariant (best, bestScore) == BestOf(CatalogScores(folderName, docs[..i], ratio))
      invariant best.Some? ==> best.value < i && bestName == docs[best.value].name && bestId == docs[best.value].id
      invariant best.None? ==> bestName.None? && bestId.None?
    {
      if docs[i].name.None? {
        assert !AllNamed(docs) by { assert docs[i].name.None?; }
        return Err("AttributeError: 'NoneType' object has no attribute 'lower'");
      }
      var score := ratio(clean, ToLower(docs[i].name.value));
      CatalogScoresStep(folderName, docs, ratio, i);
      if score > bestScore {
        bestScore := score;
        bestName := docs[i].name;
        bestId := docs[i].id;
        best := Some(i);
      }
      i := i + 1;
    }
    assert docs[..|docs|] == docs;
    assert (best, bestScore) == BestOf(CatalogScores(folderName, docs, ratio));
    if bestScore < MinCatalogScore {
      bestName := None;
      bestId := None;
    }
    r := Ok(CatalogRecord(SafeUuid(sessionId), SafeUuid(documentId), folderName, bestName, bestId,
                          SafeUuid(bestId), bestScore));
  }

  // ----------------------------------------------------------------------------------------------
  // UUIDs
  // ----------------------------------------------------------------------------------------------

  /** s.replace(pat, ""): every non-overlapping occurrence, from the left, removed. */
  function RemoveAll(s: string, pat: string): (r: string)
    requires pat != ""
    ensures |r| <= |s|
    decreases |s|
  {
    if |s| < |pat| then s
    else if s[..|pat|] == pat then RemoveAll(s[|pat|..], pat)
    else [s[0]] + RemoveAll(s[1..], pat)
  }

  /** A pattern holding a character the text lacks never occurs in it. */
  lemma {:induction false} RemoveAllAbsent(s: string, pat: string, c: char)
    requires pat != "" && c in pat && c !in s
    ensures RemoveAll(s, pat) == s
    decreases |s|
  {
    if |s| >= |pat| {
      assert s[..|pat|] != pat by {
        var k :| 0 <= k < |pat| && pat[k] == c;
        assert s[..|pat|][k] == s[k];
      }
      RemoveAllAbsent(s[1..], pat, c);
      assert s == [s[0]] + s[1..];
    }
  }

  /** s.strip(chars): the characters of the set removed from both ends. */
  function StripChars(s: string, chars: set<char>): (r: string)
    ensures |r| <= |s|
    ensures r != "" ==> r[0] !in chars && r[|r| - 1] !in chars
    decreases |s|
  {
    if |s| > 0 && s[0] in chars then StripChars(s[1..], chars)
    else if |s| > 0 && s[|s| - 1] in chars then StripChars(s[..|s| - 1], chars)
    else s
  }

  predicate IsHexDigit(c: char) { IsDigit(c) || 'a' <= c <= 'f' || 'A' <= c <= 'F' }

  predicate IsUuidHex(h: string) {
    |h| == 32 && forall i :: 0 <= i < |h| ==> IsDigit(h[i]) || 'a' <= h[i] <= 'f'
  }

  /** What uuid.UUID reads from the text: "urn:" and "uuid:" removed, braces stripped from both
      ends, dashes removed. */
  function UuidHex(s: string): (r: string)
    ensures |r| <= |s|
  {
    RemoveChars(StripChars(RemoveAll(RemoveAll(s, "urn:"), "uuid:"), {'{', '}'}), {'-'})
  }

  /** safe_uuid: the UUID (as its 32 lower-case hex digits) when the text reads as 32 hex digits,
      None otherwise; Python's None reads as the text "None", which is no UUID. */
  function SafeUuid(value: Option<string>): (r: Option<string>)
    ensures r.Some? ==> IsUuidHex(r.value)
    ensures value.None? ==> r.None?
    ensures value.Some? ==> (r.Some? <==>
      var h := UuidHex(value.value); |h| == 32 && forall i :: 0 <= i < |h| ==> IsHexDigit(h[i]))
  {
    var text := if value.Some? then value.value else "None";
    var h := UuidHex(text);
    assert |h| <= |text|;
    if |h| == 32 && forall i :: 0 <= i < |h| ==> IsHexDigit(h[i]) then
      var l := ToLower(h);
      assert forall i :: 0 <= i < 32 ==> IsDigit(l[i]) || 'a' <= l[i] <= 'f';
      Some(l)
    else
      None
  }

  /** The canonical 8-4-4-4-12 form of a UUID. */
  function CanonicalForm(h: string): (r: string)
    requires |h| == 32
  {
    h[..8] + "-" + h[8..12] + "-" + h[12..16] + "-" + h[16..20] + "-" + h[20..]
  }

  /** Removing characters from a concatenation removes them from each part. */
  lemma {:induction false} RemoveCharsConcat(a: string, b: string, drop: set<char>)
    ensures RemoveChars(a + b, drop) == RemoveChars(a, drop) + RemoveChars(b, drop)
    decreases |a|
  {
    if |a| > 0 {
      assert (a + b)[1..] == a[1..] + b;
      RemoveCharsConcat(a[1..], b, drop);
    } else {
      assert a + b == b;
    }
  }

  /** Removing the dashes from "x-y", where x has none, leaves x followed by y without dashes. */
  lemma DashJoin(x: string, y: string)
    requires '-' !in x
    ensures RemoveChars(x + "-" + y, {'-'}) == x + RemoveChars(y, {'-'})
  {
    RemoveCharsConcat(x + "-", y, {'-'});
    RemoveCharsConcat(x, "-", {'-'});
    RemoveAbsentChars(x, {'-'});
    assert RemoveChars("-", {'-'}) == "";
  }

  /** The canonical form holds no ':' and no brace, so only the dash removal changes it. */
  lemma CanonicalHasNoPrefixOrBraces(h: string)
    requires IsUuidHex(h)
    ensures StripChars(RemoveAll(RemoveAll(CanonicalForm(h), "urn:"), "uuid:"), {'{', '}'}) == CanonicalForm(h)
  {
    var c := CanonicalForm(h);
    assert forall i :: 0 <= i < |c| ==> c[i] != ':';
    RemoveAllAbsent(c, "urn:", ':');
    RemoveAllAbsent(c, "uuid:", ':');
    assert c[0] == h[0] && c[|c| - 1] == h[31];
  }

  /** Removing the dashes of the canonical form gives back the hex digits. */
  lemma CanonicalDashes(h: string)
    requires IsUuidHex(h)
    ensures RemoveChars(CanonicalForm(h), {'-'}) == h
  {
    var r4 := h[20..];
    var r3 := h[16..20] + "-" + r4;
    var r2 := h[12..16] + "-" + r3;
    var r1 := h[8..12] + "-" + r2;
    assert CanonicalForm(h) == h[..8] + "-" + r1;
    RemoveAbsentChars(r4, {'-'});
    DashJoin(h[16..20], r4);
    DashJoin(h[12..16], r3);
    DashJoin(h[8..12], r2);
    DashJoin(h[..8], r1);
    assert h[..8] + (h[8..12] + (h[12..16] + (h[16..20] + h[20..]))) == h;
  }

  /** Reading the canonical form gives back the hex digits. */
  lemma UuidHexOfCanonical(h: string)
    requires IsUuidHex(h)
    ensures UuidHex(CanonicalForm(h)) == h
  {
    CanonicalHasNoPrefixOrBraces(h);
    CanonicalDashes(h);
  }

  /** Round trip: a UUID written in canonical form reads back as itself. */
  lemma SafeUuidCanonical(h: string)
    requires IsUuidHex(h)
    ensures SafeUuid(Some(CanonicalForm(h))) == Some(h)
  {
    UuidHexOfCanonical(h);
    assert ToLower(h) == h;
  }
}

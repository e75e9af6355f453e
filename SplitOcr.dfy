/** The page-splitting script: every page of a PDF is OCRed with three engines, the best text is
    kept per page, and the goods descriptions of all pages are screened once against the control
    list. The engines, the files and the database are parameters or left out. */
module SplitOcr {
  import opened Wrappers
  import opened Text
  import opened Screening

  // ----------------------------------------------------------------------------------------------
  // Form names
  // ----------------------------------------------------------------------------------------------

  /** The class [A-Z0-9 ] that survives the first substitution. */
  predicate IsFormChar(c: char) { IsUpper(c) || IsDigit(c) || c == ' ' }

  /** `re.sub(r"[^A-Z0-9 ]", "", s)` */
  function KeepFormChars(s: string): (r: string)
    ensures forall i :: 0 <= i < |r| ==> IsFormChar(r[i])
    ensures |r| <= |s|
  {
    if |s| == 0 then ""
    else if IsFormChar(s[0]) then [s[0]] + KeepFormChars(s[1..])
    else KeepFormChars(s[1..])
  }

  /** Collapsing whitespace runs brings in no character other than a space. */
  lemma {:induction false} CollapseKeepsFormChars(s: string)
    requires forall i :: 0 <= i < |s| ==> IsFormChar(s[i])
    ensures forall i :: 0 <= i < |CollapseSpaces(s)| ==> IsFormChar(CollapseSpaces(s)[i])
    decreases |s|
  {
    if |s| > 0 {
      if IsSpace(s[0]) {
        var t := TrimStart(s[1..]);
        TrimStartIsSuffix(s[1..]);
        assert forall i :: 0 <= i < |t| ==> t[i] == s[1..][|s[1..]| - |t| + i];
        CollapseKeepsFormChars(t);
      } else {
        CollapseKeepsFormChars(s[1..]);
      }
    }
  }

  const MaxFormNameLength := 50

  /** sanitize_form_name: upper-cased and trimmed, everything but [A-Z0-9 ] removed, each run of
      spaces turned into one '_', cut to 50 characters. The result is a safe file-name part: only
      [A-Z0-9_], never two '_' in a row, at most 50 characters. */
  function SanitizeFormName(name: string): (r: string)
    ensures |r| <= MaxFormNameLength
    ensures forall i :: 0 <= i < |r| ==> IsUpper(r[i]) || IsDigit(r[i]) || r[i] == '_'
    ensures forall i :: 0 <= i < |r| - 1 ==> !(r[i] == '_' && r[i + 1] == '_')
    ensures var c := CollapseSpaces(KeepFormChars(Trim(ToUpper(name))));
      |r| == (if |c| <= MaxFormNameLength then |c| else MaxFormNameLength) &&
      forall i :: 0 <= i < |r| ==> r[i] == (if c[i] == ' ' then '_' else c[i])
  {
    var kept := KeepFormChars(Trim(ToUpper(name)));
    var c := CollapseSpaces(kept);
    assert forall i :: 0 <= i < |c| ==> IsFormChar(c[i]) by {
      CollapseKeepsFormChars(kept);
    }
    var joined := ReplaceChar(c, ' ', '_');
    if |joined| <= MaxFormNameLength then joined else joined[..MaxFormNameLength]
  }

  /** Filtering a string made of the class keeps it whole. */
  lemma {:induction false} KeepAllFormChars(s: string)
    requires forall i :: 0 <= i < |s| ==> IsFormChar(s[i])
    ensures KeepFormChars(s) == s
  {
    if |s| > 0 {
      KeepAllFormChars(s[1..]);
      assert s == [s[0]] + s[1..];
    }
  }

  /** A name already in clean form (upper-case letters, digits and single inner spaces, at most
      50 characters) is only given underscores for its spaces. */
  lemma SanitizeCleanName(name: string)
    requires forall i :: 0 <= i < |name| ==> IsFormChar(name[i])
    requires name == [] || (name[0] != ' ' && name[|name| - 1] != ' ')
    requires forall i :: 0 <= i < |name| - 1 ==> !(name[i] == ' ' && name[i + 1] == ' ')
    requires |name| <= MaxFormNameLength
    ensures SanitizeFormName(name) == ReplaceChar(name, ' ', '_')
  {
    assert ToUpper(name) == name;
    TrimOfTrimmed(name);
    KeepAllFormChars(name);
    CollapseSingleSpaced(name);
  }

  /** Sanitising is not idempotent: "A_B" is a possible result (the name "A B"), yet sanitising
      it again drops the underscore. */
  lemma SanitizeNotIdempotent()
    ensures SanitizeFormName("A B") == "A_B"
    ensures SanitizeFormName("A_B") == "AB"
  {
    SanitizeSpace();
    SanitizeUnderscore();
  }

  lemma SanitizeSpace()
    ensures SanitizeFormName("A B") == "A_B"
  {
    assert ToUpper("A B") == "A B";
    TrimOfTrimmed("A B");
    assert KeepFormChars("A B") == "A B" by {
      assert "A B"[1..] == " B" && " B"[1..] == "B" && "B"[1..] == "";
    }
    assert CollapseSpaces("A B") == "A B" by {
      assert "A B"[1..] == " B" && " B"[1..] == "B" && "B"[1..] == "";
      assert TrimStart("B") == "B";
    }
    assert ReplaceChar("A B", ' ', '_') == "A_B";
  }

  lemma SanitizeUnderscore()
    ensures SanitizeFormName("A_B") == "AB"
  {
    assert ToUpper("A_B") == "A_B";
    TrimOfTrimmed("A_B");
    assert KeepFormChars("A_B") == "AB" by {
      assert "A_B"[1..] == "_B" && "_B"[1..] == "B" && "B"[1..] == "";
    }
    assert CollapseSpaces("AB") == "AB" by {
      assert "AB"[1..] == "B" && "B"[1..] == "";
    }
    assert ReplaceChar("AB", ' ', '_') == "AB";
  }

  // ----------------------------------------------------------------------------------------------
  // OCR of one page
  // ----------------------------------------------------------------------------------------------

  /** extract_text_from_image_with_rotation: the Tesseract texts of the page turned by 0, 90, 180
      and 270 degrees, stripped; the longest one wins, the earliest on a tie, and "" when all are
      empty. The rotation scores are the stripped lengths. */
  function RotationLengths(texts: seq<string>): (r: seq<real>)
    ensures |r| == |texts|
    ensures forall i :: 0 <= i < |texts| ==> r[i] == |Trim(texts[i])| as real
  {
    seq(|texts|, i requires 0 <= i < |texts| => |Trim(texts[i])| as real)
  }

  method LongestRotationText(texts: seq<string>) returns (text: string)
    ensures var best := BestOf(RotationLengths(texts));
      best.0.Some? ==> best.0.value < |texts|
    ensures var best := BestOf(RotationLengths(texts));
      text == (if best.0.Some? then Trim(texts[best.0.value]) else "")
  {
    ghost var lengths := RotationLengths(texts);
    var maxText := "";
    var maxLen := 0;
    ghost var best: Option<nat> := None;
    var i := 0;
    while i < |texts|
      invariant 0 <= i <= |texts|
      invariant (best, maxLen as real) == BestOf(lengths[..i])
      invariant best.Some? ==> best.value < i && maxText == Trim(texts[best.value])
      invariant best.None? ==> maxText == ""
    {
      var t := Trim(texts[i]);
      assert lengths[..i + 1][..i] == lengths[..i];
      if |t| > maxLen {
        maxText := t;
        maxLen := |t|;
        best := Some(i);
      }
      i := i + 1;
    }
    assert lengths[..|texts|] == lengths;
    text := maxText;
  }

  /** Which engine's text was kept. */
  datatype OcrSource = Vision | DocumentIntelligence | Tesseract | NoSource

  /** The dictionary extract_text_multi_ocr returns. */
  datatype OcrTexts = OcrTexts(tesseract: string, azureDoc: string, azureOpenAi: Option<string>,
                               finalText: string, source: OcrSource)

  /** A text an engine produced is usable: present, non-empty and longer than 10 characters once
      stripped. */
  predicate Usable(t: Option<string>) {
    t.Some? && t.value != "" && |Trim(t.value)| > 10
  }

  /** The Document Intelligence text of a page: "" when the analysis raised or the page is past
      the analysed pages. */
  function AzureDocText(azurePages: Option<seq<string>>, pageIndex: nat): (r: string)
    ensures azurePages.Some? && pageIndex < |azurePages.value| ==> r == azurePages.value[pageIndex]
    ensures azurePages.None? || pageIndex >= |azurePages.value| ==> r == ""
  {
    if azurePages.Some? && pageIndex < |azurePages.value| then azurePages.value[pageIndex] else ""
  }

  /** extract_text_multi_ocr, given each engine's outcome: the vision text if usable, else the
      Document Intelligence text if usable, else the Tesseract text if usable, else the
      "[NO TEXT FOUND]" sentinel with no source. `vision` is None when that call failed. */
  function ExtractTextMultiOcr(tesseract: string, azurePages: Option<seq<string>>, vision: Option<string>,
                               pageIndex: nat): (r: OcrTexts)
    ensures r.tesseract == tesseract && r.azureOpenAi == vision && r.azureDoc == AzureDocText(azurePages, pageIndex)
    ensures Usable(vision) ==> r.finalText == vision.value && r.source == Vision
    ensures !Usable(vision) && Usable(Some(r.azureDoc)) ==>
      r.finalText == r.azureDoc && r.source == DocumentIntelligence
    ensures !Usable(vision) && !Usable(Some(r.azureDoc)) && Usable(Some(tesseract)) ==>
      r.finalText == tesseract && r.source == Tesseract
    ensures !Usable(vision) && !Usable(Some(r.azureDoc)) && !Usable(Some(tesseract)) ==>
      r.finalText == NoTextSentinel && r.source == NoSource
  {
    var doc := AzureDocText(azurePages, pageIndex);
    var (final, source) :=
      if Usable(vision) then (vision.value, Vision)
      else if Usable(Some(doc)) then (doc, DocumentIntelligence)
      else if Usable(Some(tesseract)) then (tesseract, Tesseract)
      else (NoTextSentinel, NoSource);
    OcrTexts(tesseract, doc, vision, final, source)
  }

  /** The kept text is always an engine's text of more than 10 stripped characters, or the
      sentinel when no engine was kept. */
  lemma FinalTextIsUsableOrSentinel(tesseract: string, azurePages: Option<seq<string>>, vision: Option<string>,
                                    pageIndex: nat)
    ensures var r := ExtractTextMultiOcr(tesseract, azurePages, vision, pageIndex);
      (r.source != NoSource ==> |Trim(r.finalText)| > 10) &&
      (r.source == NoSource ==> r.finalText == NoTextSentinel)
  {
    var r := ExtractTextMultiOcr(tesseract, azurePages, vision, pageIndex);
    assert Trim(NoTextSentinel) == NoTextSentinel by {
      TrimOfTrimmed(NoTextSentinel);
    }
  }

  /** The page text written to Page_NN.txt: a missing or short text becomes the sentinel. */
  function PageFinalText(finalText: string): (r: string)
    ensures finalText == "" || |Trim(finalText)| < 10 ==> r == NoTextSentinel
    ensures !(finalText == "" || |Trim(finalText)| < 10) ==> r == finalText
  {
    if finalText == "" || |Trim(finalText)| < 10 then NoTextSentinel else finalText
  }

  /** Fields are extracted from a page only when its stripped text is not the sentinel and has
      at least 10 characters; otherwise the page's fields are empty. */
  function FieldsExtracted(pageText: string): (r: bool)
    ensures r ==> |Trim(pageText)| >= 10 && !IsBlank(pageText)
    ensures Trim(pageText) == NoTextSentinel ==> !r
    ensures |Trim(pageText)| >= 10 && Trim(pageText) != NoTextSentinel ==> r
  {
    !(Trim(pageText) == NoTextSentinel || |Trim(pageText)| < 10)
  }

  /** The page check after OCR never changes the text: the multi-engine choice already gave a
      text of more than 10 stripped characters, or the sentinel. Fields are then skipped exactly
      when no engine produced a usable text (or the text chosen is itself the sentinel). */
  lemma PageCheckIsNoOp(tesseract: string, azurePages: Option<seq<string>>, vision: Option<string>, pageIndex: nat)
    ensures var r := ExtractTextMultiOcr(tesseract, azurePages, vision, pageIndex);
      PageFinalText(r.finalText) == r.finalText &&
      (r.source == NoSource ==> !FieldsExtracted(r.finalText)) &&
      (r.source != NoSource ==> (FieldsExtracted(r.finalText) <==> Trim(r.finalText) != NoTextSentinel))
  {
    FinalTextIsUsableOrSentinel(tesseract, azurePages, vision, pageIndex);
    TrimOfTrimmed(NoTextSentinel);
  }

  /** The module-level cache of Document Intelligence page texts. It is filled by the first
      analysis and then returned for every later call, whatever PDF is asked for. */
  class AzureCache {
    var pages: seq<string>

    constructor ()
      ensures pages == []
    {
      pages := [];
    }

    /** extract_text_azure_document: the cached pages when there are any; otherwise the outcome
        of analysing the PDF (None when the analysis raised, which leaves the cache empty). */
    method Pages(analysis: Option<seq<string>>) returns (r: Option<seq<string>>)
      modifies this
      ensures old(pages) != [] ==> r == Some(old(pages)) && pages == old(pages)
      ensures old(pages) == [] && analysis.None? ==> r.None? && pages == []
      ensures old(pages) == [] && analysis.Some? ==> r == analysis && pages == analysis.value
    {
      if pages != [] {
        return Some(pages);
      }
      if analysis.None? {
        return None;
      }
      var i := 0;
      while i < |analysis.value|
        invariant 0 <= i <= |analysis.value|
        invariant pages == analysis.value[..i]
      {
        pages := pages + [analysis.value[i]];
        i := i + 1;
      }
      assert analysis.value[..|analysis.value|] == analysis.value;
      r := Some(pages);
    }
  }

  // ----------------------------------------------------------------------------------------------
  // Goods screening across pages
  // ----------------------------------------------------------------------------------------------

  /** What one page adds to the collection: its goods text when it has a goods section. */
  function PagePart(page: string): (r: seq<string>)
    ensures r == [] <==> !MentionsGoods(page)
    ensures r != [] ==> r == [GoodsText(page)]
  {
    if MentionsGoods(page) then [GoodsText(page)] else []
  }

  /** The goods texts collected from the pages in order: one per page with a goods section. */
  function GoodsTexts(pages: seq<string>): (r: seq<string>)
    ensures |r| <= |pages|
  {
    if |pages| == 0 then [] else PagePart(pages[0]) + GoodsTexts(pages[1..])
  }

  /** Nothing is collected exactly when no page has a goods section. */
  lemma {:induction false} GoodsTextsEmpty(pages: seq<string>)
    ensures GoodsTexts(pages) == [] <==> forall i :: 0 <= i < |pages| ==> !MentionsGoods(pages[i])
  {
    if |pages| > 0 {
      GoodsTextsEmpty(pages[1..]);
      assert forall i :: 1 <= i < |pages| ==> pages[i] == pages[1..][i - 1];
    }
  }

  /** One page of the collection: a page with a goods section gives its 45A description, or the
      whole page text when it has none. */
  method PageGoods(page: string) returns (part: seq<string>)
    ensures part == PagePart(page)
  {
    if !MentionsGoods(page) {
      return [];
    }
    var text := ExtractGoodsDescription(page);
    if text == NoGoodsSentinel {
      text := page;
    }
    part := [text];
  }

  /** The page loop's collection into all_goods_texts. */
  method CollectGoodsTexts(pages: seq<string>) returns (goods: seq<string>)
    ensures goods == GoodsTexts(pages)
  {
    goods := [];
    var i := 0;
    while i < |pages|
      invariant 0 <= i <= |pages|
      invariant goods + GoodsTexts(pages[i..]) == GoodsTexts(pages)
    {
      assert pages[i..][1..] == pages[i + 1..];
      var part := PageGoods(pages[i]);
      assert GoodsTexts(pages[i..]) == part + GoodsTexts(pages[i + 1..]);
      ConcatAssoc(goods, part, GoodsTexts(pages[i + 1..]));
      goods := goods + part;
      i := i + 1;
    }
    assert pages[|pages|..] == [];
  }

  const PageSplit: string := "\n--- PAGE SPLIT ---\n"

  /** The goods texts joined with the page-split marker, then whitespace-normalised. */
  function CombinedGoods(goods: seq<string>): (r: string)
    ensures SingleSpaced(r)
    ensures '\n' !in r
  {
    var r := Normalize(Join(goods, PageSplit));
    assert forall i :: 0 <= i < |r| ==> r[i] != '\n';
    r
  }

  const MaxShortWords := 20

  /** The short description: the first line, normalised; when it has more than 20 words, its
      first 20 words joined by single spaces, followed by "...". */
  function ShortDescription(combined: string): (r: string)
    ensures var line := Normalize(Split(combined, '\n')[0]);
      |Words(line)| <= MaxShortWords ==> r == line
    ensures var line := Normalize(Split(combined, '\n')[0]);
      |Words(line)| > MaxShortWords ==> r == Join(Words(line)[..MaxShortWords], " ") + "..."
  {
    var line := Normalize(Split(combined, '\n')[0]);
    var words := Words(line);
    if |words| > MaxShortWords then Join(words[..MaxShortWords], " ") + "..." else line
  }

  /** A string without the separator splits into itself alone. */
  lemma SplitWithoutSeparator(s: string, sep: char)
    requires sep !in s
    ensures Split(s, sep) == [s]
  {
    SplitPrefix(s, "", sep);
    assert s + "" == s;
  }

  /** Normalising a string that is already single-spaced changes nothing. */
  lemma {:induction false} NormalizeSingleSpaced(s: string)
    requires SingleSpaced(s)
    ensures Normalize(s) == s
  {
    CollapseSingleSpaced(s);
    TrimOfTrimmed(s);
  }

  lemma {:induction false} CollapseSingleSpaced(s: string)
    requires forall i :: 0 <= i < |s| && IsSpace(s[i]) ==> s[i] == ' '
    requires forall i :: 0 <= i < |s| - 1 ==> !(IsSpace(s[i]) && IsSpace(s[i + 1]))
    ensures CollapseSpaces(s) == s
    decreases |s|
  {
    if |s| > 0 {
      if IsSpace(s[0]) {
        assert |s| == 1 || !IsSpace(s[1..][0]);
        assert TrimStart(s[1..]) == s[1..];
      }
      CollapseSingleSpaced(s[1..]);
      assert s == [s[0]] + s[1..];
    }
  }

  /** Since the combined goods text has no newline left, the short description is taken from the
      whole combined text, not from its first page: the "first line" step has no effect. */
  lemma ShortDescriptionOfCombined(goods: seq<string>)
    ensures var c := CombinedGoods(goods);
      var words := Words(c);
      ShortDescription(c) == (if |words| > MaxShortWords then Join(words[..MaxShortWords], " ") + "..." else c)
  {
    var c := CombinedGoods(goods);
    SplitWithoutSeparator(c, '\n');
    NormalizeSingleSpaced(c);
  }

  const SplitThreshold := 0.55

  /** The screening after the page loop: nothing when no page has a goods section; otherwise the
      combined goods text is matched with threshold 0.55, and the short description is what is
      stored with the verdict. A control row without a Description makes the match raise. */
  method ScreenPages(pages: seq<string>, items: seq<ControlItem>, ratio: (string, string) -> real)
    returns (result: Result<Option<(string, MatchInfo)>, string>)
    ensures result.Err? <==> (exists i :: 0 <= i < |pages| && MentionsGoods(pages[i])) && !AllDescribed(items)
    ensures result.Ok? ==> (result.value.None? <==> forall i :: 0 <= i < |pages| ==> !MentionsGoods(pages[i]))
    ensures result.Ok? && result.value.Some? ==> AllDescribed(items)
    ensures result.Ok? && result.value.Some? ==>
      var combined := CombinedGoods(GoodsTexts(pages));
      var best := BestOf(Scores(combined, items, ratio));
      (best.0.Some? ==> best.0.value < |items|) &&
      result.value.value == (ShortDescription(combined), Verdict(items, best, SplitThreshold))
  {
    var goods := CollectGoodsTexts(pages);
    GoodsTextsEmpty(pages);
    if goods == [] {
      return Ok(None);
    }
    var combined := CombinedGoods(goods);
    var matchInfo := FindBestMatch(combined, items, SplitThreshold, ratio);
    if matchInfo.Err? {
      return Err(matchInfo.error);
    }
    result := Ok(Some((ShortDescription(combined), matchInfo.value)));
  }
}

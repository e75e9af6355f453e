/** The whole-document script: the text of a PDF comes from its embedded text or, failing that,
    from OCR, and the document's goods description is screened against the control list. The
    PDF reader, the OCR engines, the files and the database are parameters or left out. */
module OcrAlone {
  import opened Wrappers
  import opened Text
  import opened Screening

  /** The threshold process_pdf passes to find_best_match. */
  const AloneThreshold := 0.55

  // ----------------------------------------------------------------------------------------------
  // Text extraction
  // ----------------------------------------------------------------------------------------------

  /** Each piece followed by the terminator, in order: the string built by `acc += piece + term`. */
  function Terminated(pieces: seq<string>, term: string): string {
    if |pieces| == 0 then "" else Terminated(pieces[..|pieces| - 1], term) + pieces[|pieces| - 1] + term
  }

  /** The embedded text of each page, with a page that has none counting as "". */
  function PageTexts(pages: seq<Option<string>>): (r: seq<string>)
    ensures |r| == |pages|
    ensures forall i :: 0 <= i < |pages| ==> r[i] == pages[i].GetOr("")
  {
    seq(|pages|, i requires 0 <= i < |pages| => pages[i].GetOr(""))
  }

  /** extract_text_from_pdf: every page's text followed by a newline, the whole stripped. */
  method ExtractTextFromPdf(pages: seq<Option<string>>) returns (text: string)
    ensures text == Trim(Terminated(PageTexts(pages), "\n"))
  {
    ghost var texts := PageTexts(pages);
    var fullText := "";
    var i := 0;
    while i < |pages|
      invariant 0 <= i <= |pages|
      invariant fullText == Terminated(texts[..i], "\n")
    {
      var t := if pages[i].Some? then pages[i].value else "";
      assert texts[..i + 1][..i] == texts[..i];
      fullText := fullText + t + "\n";
      i := i + 1;
    }
    assert texts[..|pages|] == texts;
    text := Trim(fullText);
  }

  /** What one page adds in the OCR loop: its stripped Tesseract text and a blank line, or
      nothing when that text is blank. */
  function OcrPart(page: string): (r: string)
    ensures IsBlank(page) ==> r == ""
    ensures !IsBlank(page) ==> r == Trim(page) + "\n\n" && !IsBlank(r)
  {
    var t := Trim(page);
    assert t != [] ==> (t + "\n\n")[0] == t[0];
    if Trim(t) == "" then "" else t + "\n\n"
  }

  /** The text built by the OCR loop over the pages, in order. */
  function OcrPagesText(ocr: seq<string>): string {
    if |ocr| == 0 then "" else OcrPagesText(ocr[..|ocr| - 1]) + OcrPart(ocr[|ocr| - 1])
  }

  /** The fallback's outcome. `azure` is the Document Intelligence text, or None when the
      analysis raised; it is only asked for when the method is "azure" in any case. */
  function FallbackText(ocrMethod: string, azure: Option<string>, ocr: seq<string>): (r: string)
    ensures ToLower(ocrMethod) == "azure" && azure.Some? && !IsBlank(azure.value) ==> r == azure.value
    ensures !(ToLower(ocrMethod) == "azure" && azure.Some? && !IsBlank(azure.value)) ==> IsTrimmed(r)
  {
    var tried := ToLower(ocrMethod) == "azure";
    if tried && azure.Some? && Trim(azure.value) != "" then azure.value
    else
      var start := if tried && azure.Some? then azure.value else "";
      Trim(start + OcrPagesText(ocr))
  }

  /** The loop over the page images: each non-blank stripped Tesseract text and a blank line are
      appended to what is already there. */
  method AppendOcrPages(start: string, ocr: seq<string>) returns (fullText: string)
    ensures fullText == start + OcrPagesText(ocr)
  {
    fullText := start;
    var i := 0;
    while i < |ocr|
      invariant 0 <= i <= |ocr|
      invariant fullText == start + OcrPagesText(ocr[..i])
    {
      var pageText := Trim(ocr[i]);
      assert ocr[..i + 1][..i] == ocr[..i];
      ghost var done := OcrPagesText(ocr[..i]);
      ghost var part := OcrPart(ocr[i]);
      assert OcrPagesText(ocr[..i + 1]) == done + part;
      if Trim(pageText) != "" {
        assert part == pageText + "\n\n";
        ConcatAssoc(start, done, part);
        fullText := fullText + (pageText + "\n\n");
      } else {
        assert part == "" && done + part == done;
      }
      i := i + 1;
    }
    assert ocr[..|ocr|] == ocr;
  }

  /** extract_text_fallback: the Azure text when the method is "azure" (in any case) and the
      analysis gave a non-blank text; otherwise the non-blank Tesseract page texts, each followed
      by a blank line, stripped. */
  method ExtractTextFallback(ocrMethod: string, azure: Option<string>, ocr: seq<string>) returns (text: string)
    ensures text == FallbackText(ocrMethod, azure, ocr)
  {
    var fullText := "";
    if ToLower(ocrMethod) == "azure" {
      if azure.Some? {
        fullText := azure.value;
        if Trim(fullText) != "" {
          return fullText;
        }
      }
    }
    fullText := AppendOcrPages(fullText, ocr);
    text := Trim(fullText);
  }

  /** A blank text in front changes nothing once the result is stripped. */
  lemma {:induction false} TrimBlankPrefix(b: string, s: string)
    requires IsBlank(b)
    ensures Trim(b + s) == Trim(s)
    decreases |b|
  {
    if |b| > 0 {
      assert (b + s)[1..] == b[1..] + s;
      assert IsSpace(b[0]);
      TrimBlankPrefix(b[1..], s);
    } else {
      assert b + s == s;
    }
  }

  /** Unless the Azure text is used, the fallback is exactly the non-blank OCR page texts, each
      followed by a blank line, stripped: a blank Azure text left in front is stripped away. */
  lemma FallbackIsOcrPages(ocrMethod: string, azure: Option<string>, ocr: seq<string>)
    requires !(ToLower(ocrMethod) == "azure" && azure.Some? && !IsBlank(azure.value))
    ensures FallbackText(ocrMethod, azure, ocr) == Trim(OcrPagesText(ocr))
  {
    var tried := ToLower(ocrMethod) == "azure";
    var start := if tried && azure.Some? then azure.value else "";
    TrimBlankPrefix(start, OcrPagesText(ocr));
  }

  /** A concatenation is blank exactly when both parts are. */
  lemma BlankConcat(a: string, b: string)
    ensures IsBlank(a + b) <==> IsBlank(a) && IsBlank(b)
  {
    assert forall i :: 0 <= i < |a| ==> (a + b)[i] == a[i];
    assert forall i :: 0 <= i < |b| ==> (a + b)[|a| + i] == b[i];
  }

  lemma OcrPartBlank(page: string)
    ensures IsBlank(OcrPart(page)) <==> IsBlank(page)
  {
  }

  /** Every page's text is blank. */
  predicate AllBlank(ocr: seq<string>) {
    |ocr| == 0 || (AllBlank(ocr[..|ocr| - 1]) && IsBlank(ocr[|ocr| - 1]))
  }

  lemma {:induction false} AllBlankMeansEveryPage(ocr: seq<string>)
    ensures AllBlank(ocr) <==> forall i :: 0 <= i < |ocr| ==> IsBlank(ocr[i])
  {
    if |ocr| > 0 {
      var prev := ocr[..|ocr| - 1];
      AllBlankMeansEveryPage(prev);
      assert forall i :: 0 <= i < |prev| ==> prev[i] == ocr[i];
    }
  }

  /** The OCR pages give a blank text exactly when every page's text is blank. */
  lemma {:induction false} OcrPagesBlank(ocr: seq<string>)
    ensures IsBlank(OcrPagesText(ocr)) <==> AllBlank(ocr)
  {
    if |ocr| > 0 {
      var n := |ocr| - 1;
      OcrPagesBlank(ocr[..n]);
      BlankConcat(OcrPagesText(ocr[..n]), OcrPart(ocr[n]));
      OcrPartBlank(ocr[n]);
    }
  }

  /** Unless the Azure text is used, the fallback is blank exactly when every OCR page is. */
  lemma FallbackBlankIffNoPageText(ocrMethod: string, azure: Option<string>, ocr: seq<string>)
    requires !(ToLower(ocrMethod) == "azure" && azure.Some? && !IsBlank(azure.value))
    ensures IsBlank(FallbackText(ocrMethod, azure, ocr)) <==> forall i :: 0 <= i < |ocr| ==> IsBlank(ocr[i])
  {
    FallbackIsOcrPages(ocrMethod, azure, ocr);
    OcrPagesBlank(ocr);
    AllBlankMeansEveryPage(ocr);
    var t := Trim(OcrPagesText(ocr));
    assert IsBlank(t) <==> t == [] by {
      if t != [] { assert !IsSpace(t[0]); }
    }
  }

  /** process_pdf's text: the embedded text when not blank, else the fallback's when not blank,
      else the "[NO TEXT FOUND]" sentinel. The text is never blank. */
  function DocumentText(pdfText: string, fallback: string): (r: string)
    ensures !IsBlank(r)
    ensures !IsBlank(pdfText) ==> r == pdfText
    ensures IsBlank(pdfText) && !IsBlank(fallback) ==> r == fallback
    ensures IsBlank(pdfText) && IsBlank(fallback) ==> r == NoTextSentinel
  {
    if Trim(pdfText) != "" then pdfText
    else if Trim(fallback) != "" then fallback
    else
      assert NoTextSentinel[0] == '[';
      NoTextSentinel
  }

  // ----------------------------------------------------------------------------------------------
  // Screening
  // ----------------------------------------------------------------------------------------------

  /** process_pdf's screening: skipped when the text mentions no goods section; otherwise the 45A
      description (the whole text when it has none) is matched with threshold 0.55, and a control
      row without a Description makes the match raise. */
  method ScreenDocument(fullText: string, items: seq<ControlItem>, ratio: (string, string) -> real)
    returns (result: Result<Option<(string, MatchInfo)>, string>)
    ensures result.Err? <==> MentionsGoods(fullText) && !AllDescribed(items)
    ensures result.Ok? ==> (result.value.None? <==> !MentionsGoods(fullText))
    ensures result.Ok? && result.value.Some? ==> AllDescribed(items)
    ensures result.Ok? && result.value.Some? ==>
      var best := BestOf(Scores(GoodsText(fullText), items, ratio));
      (best.0.Some? ==> best.0.value < |items|) &&
      result.value.value == (GoodsText(fullText), Verdict(items, best, AloneThreshold))
  {
    if !MentionsGoods(fullText) {
      return Ok(None);
    }
    var goodsText := ExtractGoodsDescription(fullText);
    if goodsText == NoGoodsSentinel {
      goodsText := fullText;
    }
    var matchInfo := FindBestMatch(goodsText, items, AloneThreshold, ratio);
    if matchInfo.Err? {
      return Err(matchInfo.error);
    }
    result := Ok(Some((goodsText, matchInfo.value)));
  }
}

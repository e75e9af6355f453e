/** Page classification: the master list of document forms, the reading of the two language-model
    replies (text and page image), and the threshold rule that fuses them into one code per page. */
module Classification {
  import opened Wrappers
  import opened Text
  import opened Lists

  // ----------------------------------------------------------------------------------------------
  // The master document forms
  // ----------------------------------------------------------------------------------------------

  /** A row of OF_document_forms: (code, document_name, sender, receiver). */
  datatype FormRow = FormRow(code: string, name: string, sender: string, receiver: string)

  /** `code.strip().upper()` */
  function FormCode(code: string): (r: string)
    ensures forall i :: 0 <= i < |r| ==> !IsLower(r[i])
  {
    ToUpper(Trim(code))
  }

  /** `name.lower().replace(" ", "_")` */
  function FormKey(name: string): (r: string)
    ensures |r| == |name|
    ensures forall i :: 0 <= i < |r| ==> r[i] != ' ' && !IsUpper(r[i])
  {
    ReplaceChar(ToLower(name), ' ', '_')
  }

  /** The (code, key) pair each row contributes. */
  function FormPairs(rows: seq<FormRow>): (r: seq<(string, string)>)
    ensures |r| == |rows|
  {
    seq(|rows|, i requires 0 <= i < |rows| => (FormCode(rows[i].code), FormKey(rows[i].name)))
  }

  /** code_to_name after the loop: a later row with the same code overwrites an earlier one. */
  function CodeToName(rows: seq<FormRow>): map<string, string> {
    ToMap(FormPairs(rows))
  }

  /** The codes of the rows, with "UNKNOWN" added. */
  function ValidCodes(rows: seq<FormRow>): (s: set<string>)
    ensures "UNKNOWN" in s
  {
    (set i | 0 <= i < |rows| :: FormPairs(rows)[i].0) + {"UNKNOWN"}
  }

  /** The codes with a name are exactly the valid codes other than "UNKNOWN" (unless a row
      carries "UNKNOWN" itself), and each name is that of the last row carrying the code. */
  lemma CodeToNameIsLastRow(rows: seq<FormRow>, c: string)
    ensures CodeToName(rows).Keys + {"UNKNOWN"} == ValidCodes(rows)
    ensures c in CodeToName(rows) ==>
      (exists i :: 0 <= i < |rows| && FormCode(rows[i].code) == c && CodeToName(rows)[c] == FormKey(rows[i].name) &&
         forall j :: i < j < |rows| ==> FormCode(rows[j].code) != c)
  {
    var pairs := FormPairs(rows);
    ToMapKeys(pairs);
    if c in CodeToName(rows) {
      ToMapLastWins(pairs, c);
      var i :| LastWithKey(pairs, i, c) && ToMap(pairs)[c] == pairs[i].1;
      assert FormCode(rows[i].code) == c && CodeToName(rows)[c] == FormKey(rows[i].name);
      forall j | i < j < |rows| ensures FormCode(rows[j].code) != c {
        assert pairs[j].0 != c;
      }
    }
  }

  /** load_document_forms' loop: code_to_name and valid_codes (the descriptions written into the
      prompt are not modelled). */
  method LoadDocumentForms(rows: seq<FormRow>) returns (codeToName: map<string, string>, validCodes: set<string>)
    ensures codeToName == CodeToName(rows)
    ensures validCodes == ValidCodes(rows)
  {
    ghost var pairs := FormPairs(rows);
    codeToName := map[];
    var codes: set<string> := {};
    var i := 0;
    while i < |rows|
      invariant 0 <= i <= |rows|
      invariant codeToName == ToMap(pairs[..i])
      invariant codes == codeToName.Keys
    {
      ToMapStep(pairs, i);
      var code := FormCode(rows[i].code);
      codeToName := codeToName[code := FormKey(rows[i].name)];
      codes := codes + {code};
      i := i + 1;
    }
    assert pairs[..i] == pairs;
    ToMapKeys(pairs);
    validCodes := codes + {"UNKNOWN"};
  }

  // ----------------------------------------------------------------------------------------------
  // Reading a model reply
  // ----------------------------------------------------------------------------------------------

  /** The outcome of one language-model call: it raised (for the image: also opening the PDF or
      rendering the page), or it answered with this content. */
  datatype Reply = Raised | Answer(content: string)

  /** The reply's code and confidence: `raw = content.strip().upper()`; "CODE|CONF" when raw holds
      a '|', else the whole of raw with the default confidence. A reply with more than one '|', or
      a confidence `float` rejects (`toFloat` returns None), raises and counts as ("UNKNOWN", 0.0);
      a code outside the valid codes becomes "UNKNOWN". */
  function ReadReply(reply: Reply, valid: set<string>, defaultConf: real, toFloat: string -> Option<real>): (r: (string, real))
    ensures r.0 in valid || r.0 == "UNKNOWN"
    ensures reply.Raised? ==> r == ("UNKNOWN", 0.0)
    ensures reply.Answer? ==>
      var raw := ToUpper(Trim(reply.content));
      var pieces := Split(raw, '|');
      ('|' !in raw ==> r.1 == defaultConf && (raw in valid ==> r.0 == raw) && (raw !in valid ==> r.0 == "UNKNOWN")) &&
      ('|' in raw && (|pieces| != 2 || toFloat(pieces[1]).None?) ==> r == ("UNKNOWN", 0.0)) &&
      ('|' in raw && |pieces| == 2 && toFloat(pieces[1]).Some? ==>
        r.1 == toFloat(pieces[1]).value && (pieces[0] in valid ==> r.0 == pieces[0]) &&
        (pieces[0] !in valid ==> r.0 == "UNKNOWN"))
  {
    if reply.Raised? then ("UNKNOWN", 0.0)
    else
      var raw := ToUpper(Trim(reply.content));
      if '|' in raw then
        var pieces := Split(raw, '|');
        if |pieces| != 2 then ("UNKNOWN", 0.0)
        else
          match toFloat(pieces[1])
          case None => ("UNKNOWN", 0.0)
          case Some(conf) => (if pieces[0] in valid then pieces[0] else "UNKNOWN", conf)
      else (if raw in valid then raw else "UNKNOWN", defaultConf)
  }

  /** A code the model was asked for, answered as "CODE|CONF", is read back with that confidence. */
  lemma WellFormedReplyRead(code: string, conf: string, x: real, valid: set<string>, defaultConf: real,
                            toFloat: string -> Option<real>)
    requires code in valid && code != "" && !IsSpace(code[0]) && '|' !in code
    requires IsTrimmed(conf) && '|' !in conf && toFloat(conf) == Some(x)
    requires forall i :: 0 <= i < |code| ==> !IsLower(code[i])
    requires forall i :: 0 <= i < |conf| ==> !IsLower(conf[i])
    ensures ReadReply(Answer(code + "|" + conf), valid, defaultConf, toFloat) == (code, x)
  {
    var s := code + "|" + conf;
    CodeConfPieces(code, conf);
    assert s[|code|] == '|';
  }

  /** "CODE|CONF" with both halves upper-case and trimmed is its own raw form and splits back. */
  lemma CodeConfPieces(code: string, conf: string)
    requires code != "" && !IsSpace(code[0]) && '|' !in code
    requires IsTrimmed(conf) && '|' !in conf
    requires forall i :: 0 <= i < |code| ==> !IsLower(code[i])
    requires forall i :: 0 <= i < |conf| ==> !IsLower(conf[i])
    ensures ToUpper(Trim(code + "|" + conf)) == code + "|" + conf
    ensures Split(code + "|" + conf, '|') == [code, conf]
  {
    var s := code + "|" + conf;
    assert IsTrimmed(s);
    TrimOfTrimmed(s);
    assert ToUpper(s) == s;
    assert Join([code, conf], "|") == s by {
      assert Join([code, conf][1..], "|") == conf;
    }
    SplitJoin([code, conf], '|');
  }

  /** A bare valid code is read back with the default confidence. */
  lemma BareReplyRead(code: string, valid: set<string>, defaultConf: real, toFloat: string -> Option<real>)
    requires code in valid && IsTrimmed(code) && '|' !in code
    requires forall i :: 0 <= i < |code| ==> !IsLower(code[i])
    ensures ReadReply(Answer(code), valid, defaultConf, toFloat) == (code, defaultConf)
  {
    TrimOfTrimmed(code);
    assert ToUpper(code) == code;
  }

  /** classify_with_text: empty text is not sent; the default confidence is 0.85. */
  function ClassifyWithText(text: Option<string>, reply: Reply, valid: set<string>, toFloat: string -> Option<real>): (r: (string, real))
    ensures r.0 in valid || r.0 == "UNKNOWN"
    ensures text.None? || text == Some("") ==> r == ("UNKNOWN", 0.0)
    ensures text.Some? && text.value != "" ==> r == ReadReply(reply, valid, 0.85, toFloat)
  {
    if text.None? || text.value == "" then ("UNKNOWN", 0.0) else ReadReply(reply, valid, 0.85, toFloat)
  }

  /** classify_with_vision: the default confidence is 0.7. */
  function ClassifyWithVision(reply: Reply, valid: set<string>, toFloat: string -> Option<real>): (r: (string, real))
    ensures r.0 in valid || r.0 == "UNKNOWN"
    ensures r == ReadReply(reply, valid, 0.7, toFloat)
  {
    ReadReply(reply, valid, 0.7, toFloat)
  }

  // ----------------------------------------------------------------------------------------------
  // Fusing the two classifications
  // ----------------------------------------------------------------------------------------------

  const TextHighConf: real := 0.85
  const VisionHighConf: real := 0.75
  const MinAcceptConf: real := 0.60

  datatype Source = TextAndVision | TextOnly | VisionOnly | Weighted | NoSource

  /** The threshold rule of classify_pages. */
  function Fuse(textCode: string, textConf: real, visionCode: string, visionConf: real): (r: (string, Source))
    ensures r.1 == TextAndVision ==> r.0 == textCode && textCode == visionCode
    ensures r.1 == TextOnly ==> r.0 == textCode
    ensures r.1 == VisionOnly ==> r.0 == visionCode
    ensures r.1 == NoSource ==> r.0 == "UNKNOWN"
    ensures r.1 == Weighted ==> r.0 == (if textConf >= visionConf then textCode else visionCode)
  {
    if textCode == visionCode && textConf >= TextHighConf && visionConf >= VisionHighConf then (textCode, TextAndVision)
    else if textConf >= TextHighConf then (textCode, TextOnly)
    else if visionConf >= VisionHighConf then (visionCode, VisionOnly)
    else if (if textConf >= visionConf then textConf else visionConf) >= MinAcceptConf then
      (if textConf >= visionConf then textCode else visionCode, Weighted)
    else ("UNKNOWN", NoSource)
  }

  /** Which rule fires is decided by the confidences alone, in priority order: a confident text
      reading wins, then a confident image reading, then the more confident of two fair ones, and
      below 0.60 on both sides nothing is accepted. */
  lemma FuseRules(textCode: string, textConf: real, visionCode: string, visionConf: real)
    ensures var r := Fuse(textCode, textConf, visionCode, visionConf);
      (textConf >= 0.85 ==> r.0 == textCode && (r.1 == TextAndVision <==> textCode == visionCode && visionConf >= 0.75)) &&
      (textConf < 0.85 && visionConf >= 0.75 ==> r == (visionCode, VisionOnly)) &&
      (textConf < 0.85 && visionConf < 0.75 && (textConf >= 0.60 || visionConf >= 0.60) ==> r.1 == Weighted) &&
      (r.1 == NoSource <==> textConf < 0.60 && visionConf < 0.60)
  {
  }

  /** When the two readings agree, the fused code is theirs or "UNKNOWN". */
  lemma AgreementIsKept(code: string, textConf: real, visionConf: real)
    ensures var r := Fuse(code, textConf, code, visionConf); r.0 == code || r.0 == "UNKNOWN"
  {
  }

  /** The fused code of two valid codes is valid. */
  lemma FusedCodeValid(valid: set<string>, textCode: string, textConf: real, visionCode: string, visionConf: real)
    requires "UNKNOWN" in valid && textCode in valid && visionCode in valid
    ensures Fuse(textCode, textConf, visionCode, visionConf).0 in valid
  {
  }

  // ----------------------------------------------------------------------------------------------
  // Classifying the pages of a document
  // ----------------------------------------------------------------------------------------------

  /** One OCR page with the replies the two calls give for it. */
  datatype PageInput = PageInput(pageNo: int, text: Option<string>, textReply: Reply, visionReply: Reply)

  /** A row of OF_classification as insert_classification receives it. */
  datatype ClassificationRow = ClassificationRow(caseId: string, docId: string, filePath: string, pageNo: int,
                                                 code: string, name: string, text: Option<string>, isExternal: bool)

  /** The row written for one page: the fused code, its form name (or "unknown"), and is_external
      exactly when the image reading alone decided. */
  function PageRow(caseId: string, docId: string, filePath: string, codeToName: map<string, string>,
                   valid: set<string>, toFloat: string -> Option<real>, p: PageInput): (r: ClassificationRow)
    ensures r.code in valid || r.code == "UNKNOWN"
    ensures r.name == (if r.code in codeToName then codeToName[r.code] else "unknown")
    ensures var t := ClassifyWithText(p.text, p.textReply, valid, toFloat);
      var v := ClassifyWithVision(p.visionReply, valid, toFloat);
      r.code == Fuse(t.0, t.1, v.0, v.1).0 &&
      (r.isExternal <==> t.1 < TextHighConf && v.1 >= VisionHighConf) &&
      (r.isExternal ==> r.code == v.0)
    ensures r.caseId == caseId && r.docId == docId && r.filePath == filePath && r.pageNo == p.pageNo && r.text == p.text
  {
    var t := ClassifyWithText(p.text, p.textReply, valid, toFloat);
    var v := ClassifyWithVision(p.visionReply, valid, toFloat);
    var (code, source) := Fuse(t.0, t.1, v.0, v.1);
    ClassificationRow(caseId, docId, filePath, p.pageNo, code,
                      if code in codeToName then codeToName[code] else "unknown", p.text, source == VisionOnly)
  }

  /** The rows written for the pages, in the order the query returned them (it has no ORDER BY). */
  function PageRows(caseId: string, docId: string, filePath: string, codeToName: map<string, string>,
                    valid: set<string>, toFloat: string -> Option<real>, pages: seq<PageInput>): (r: seq<ClassificationRow>)
    ensures |r| == |pages|
    ensures forall k :: 0 <= k < |pages| ==>
      r[k].pageNo == pages[k].pageNo && r[k].text == pages[k].text && r[k].docId == docId
  {
    seq(|pages|, k requires 0 <= k < |pages| => PageRow(caseId, docId, filePath, codeToName, valid, toFloat, pages[k]))
  }

  /** The rows of one more page are the rows so far and that page's row. */
  lemma PageRowsSnoc(caseId: string, docId: string, filePath: string, codeToName: map<string, string>,
                     valid: set<string>, toFloat: string -> Option<real>, pages: seq<PageInput>, i: nat)
    requires i < |pages|
    ensures PageRows(caseId, docId, filePath, codeToName, valid, toFloat, pages[..i + 1]) ==
      PageRows(caseId, docId, filePath, codeToName, valid, toFloat, pages[..i]) +
      [PageRow(caseId, docId, filePath, codeToName, valid, toFloat, pages[i])]
  {
    var next := PageRows(caseId, docId, filePath, codeToName, valid, toFloat, pages[..i + 1]);
    var prev := PageRows(caseId, docId, filePath, codeToName, valid, toFloat, pages[..i]);
    var want := prev + [PageRow(caseId, docId, filePath, codeToName, valid, toFloat, pages[i])];
    forall k | 0 <= k < i + 1 ensures next[k] == want[k] {
      if k < i {
        assert pages[..i + 1][k] == pages[..i][k];
      }
    }
    assert next == want;
  }

  /** OF_classification. */
  class ClassificationTable {
    var rows: seq<ClassificationRow>

    constructor ()
      ensures rows == []
    {
      rows := [];
    }

    /** classify_pages: one row per fetched OCR page, in the order the query returned them. */
    method ClassifyPages(caseId: string, docId: string, filePath: string, forms: seq<FormRow>,
                         pages: seq<PageInput>, toFloat: string -> Option<real>)
      modifies this
      ensures rows == old(rows) + PageRows(caseId, docId, filePath, CodeToName(forms), ValidCodes(forms), toFloat, pages)
    {
      var codeToName, valid := LoadDocumentForms(forms);
      InsertPageRows(caseId, docId, filePath, codeToName, valid, pages, toFloat);
    }

    /** The loop of classify_pages over the OCR pages. */
    method InsertPageRows(caseId: string, docId: string, filePath: string, codeToName: map<string, string>,
                          valid: set<string>, pages: seq<PageInput>, toFloat: string -> Option<real>)
      modifies this
      ensures rows == old(rows) + PageRows(caseId, docId, filePath, codeToName, valid, toFloat, pages)
    {
      var i := 0;
      while i < |pages|
        invariant 0 <= i <= |pages|
        invariant rows == old(rows) + PageRows(caseId, docId, filePath, codeToName, valid, toFloat, pages[..i])
      {
        var row := PageRow(caseId, docId, filePath, codeToName, valid, toFloat, pages[i]);
        ghost var prev := PageRows(caseId, docId, filePath, codeToName, valid, toFloat, pages[..i]);
        PageRowsSnoc(caseId, docId, filePath, codeToName, valid, toFloat, pages, i);
        ConcatAssoc(old(rows), prev, [row]);
        rows := rows + [row];
        i := i + 1;
      }
      assert pages[..i] == pages;
    }
  }
}

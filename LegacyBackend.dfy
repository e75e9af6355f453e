/** The older back end kept in the flattened snapshot: the per-(product, day) case counter,
    the older form loading and page classification (one code reply, then a name inference for
    anything not recognised), and the older product detection. */
module LegacyBackend {
  import opened Wrappers
  import opened Text
  import opened Lists
  import Classification

  // ----------------------------------------------------------------------------------------------
  // Case identifiers
  // ----------------------------------------------------------------------------------------------

  /** The key of OF_case_sequence: (upper-cased product, YYYYMMDD). */
  type SeqKey = (string, string)

  /** The sequence number the next case of this key gets: last_seq + 1, or 1 for a new key. */
  function NextCaseSeq(lastSeq: map<SeqKey, nat>, key: SeqKey): (n: nat)
    ensures n >= 1
    ensures key in lastSeq ==> n > lastSeq[key]
  {
    if key in lastSeq then lastSeq[key] + 1 else 1
  }

  /** "CASE-" + day + "-" + the sequence number padded to four digits. */
  function CaseId(day: string, n: nat): (r: string)
    ensures var head := "CASE-" + day + "-";
      var digits := |NatToString(n)|;
      |r| == |head| + (if digits >= 4 then digits else 4) && r[..|head|] == head &&
      IsDigits(r[|head|..]) && DigitsValue(r[|head|..]) == n
  {
    var head := "CASE-" + day + "-";
    var digits := ZeroPad(n, 4);
    assert (head + digits)[|head|..] == digits;
    head + digits
  }

  /** Within one day, distinct sequence numbers give distinct case identifiers. */
  lemma CaseIdInjective(day: string, a: nat, b: nat)
    requires CaseId(day, a) == CaseId(day, b)
    ensures a == b
  {
    var head := "CASE-" + day + "-";
    assert CaseId(day, a)[|head|..] == CaseId(day, b)[|head|..];
  }

  /** The identifier does not carry the product: the first cases of two products on the same day
      get the same identifier. */
  lemma FirstCasesOfADayCoincide(lastSeq: map<SeqKey, nat>, day: string, p: string, q: string)
    requires (ToUpper(p), day) !in lastSeq && (ToUpper(q), day) !in lastSeq
    ensures CaseId(day, NextCaseSeq(lastSeq, (ToUpper(p), day))) == CaseId(day, NextCaseSeq(lastSeq, (ToUpper(q), day)))
  {
  }

  /** OF_case_sequence. */
  class CaseSequence {
    var lastSeq: map<SeqKey, nat>

    constructor (rows: map<SeqKey, nat>)
      ensures lastSeq == rows
    {
      lastSeq := rows;
    }

    /** generate_case_id: the product is upper-cased; the key's counter is created at 1 or
        advanced by one, and the identifier carries the new value. The day is an input (the
        clock is not modelled). */
    method GenerateCaseId(product: string, today: string) returns (id: string)
      modifies this
      ensures var key := (ToUpper(product), today);
        var n := NextCaseSeq(old(lastSeq), key);
        lastSeq == old(lastSeq)[key := n] && id == CaseId(today, n)
    {
      var key := (ToUpper(product), today);
      var n;
      if key in lastSeq {
        n := lastSeq[key] + 1;
      } else {
        n := 1;
      }
      lastSeq := lastSeq[key := n];
      id := CaseId(today, n);
    }
  }

  /** Two calls for the same product and day give strictly increasing numbers, hence distinct
      identifiers. */
  lemma SequencesIncrease(lastSeq: map<SeqKey, nat>, key: SeqKey)
    ensures var n1 := NextCaseSeq(lastSeq, key);
      var n2 := NextCaseSeq(lastSeq[key := n1], key);
      n2 == n1 + 1 && CaseId(key.1, n1) != CaseId(key.1, n2)
  {
    var n1 := NextCaseSeq(lastSeq, key);
    var n2 := NextCaseSeq(lastSeq[key := n1], key);
    if CaseId(key.1, n1) == CaseId(key.1, n2) {
      CaseIdInjective(key.1, n1, n2);
    }
  }

  // ----------------------------------------------------------------------------------------------
  // The older form loading
  // ----------------------------------------------------------------------------------------------

  /** `name.lower().replace(" ", "_").replace("/", "_").replace("-", "_")` */
  function LegacyFormKey(name: string): (r: string)
    ensures |r| == |name|
    ensures forall i :: 0 <= i < |r| ==> r[i] !in {' ', '/', '-'} && !IsUpper(r[i])
  {
    ReplaceChar(ReplaceChar(ReplaceChar(ToLower(name), ' ', '_'), '/', '_'), '-', '_')
  }

  /** The (code, key) pairs of the rows, as code_to_name is filled. */
  function CodePairs(rows: seq<Classification.FormRow>): (r: seq<(string, string)>)
    ensures |r| == |rows|
  {
    seq(|rows|, i requires 0 <= i < |rows| => (Classification.FormCode(rows[i].code), LegacyFormKey(rows[i].name)))
  }

  /** The (key, code) pairs, as name_to_code is filled. */
  function NamePairs(rows: seq<Classification.FormRow>): (r: seq<(string, string)>)
    ensures |r| == |rows|
  {
    seq(|rows|, i requires 0 <= i < |rows| => (LegacyFormKey(rows[i].name), Classification.FormCode(rows[i].code)))
  }

  /** The codes code_to_name was given, with lower-case "unknown" added. */
  function LegacyValidCodes(rows: seq<Classification.FormRow>): (s: set<string>)
    ensures "unknown" in s
  {
    ToMap(CodePairs(rows)).Keys + {"unknown"}
  }

  /** The older load_document_forms: code_to_name, name_to_code and valid_codes (the prompt
      descriptions are not modelled). */
  method LoadDocumentForms(rows: seq<Classification.FormRow>)
    returns (codeToName: map<string, string>, nameToCode: map<string, string>, validCodes: set<string>)
    ensures codeToName == ToMap(CodePairs(rows)) && nameToCode == ToMap(NamePairs(rows))
    ensures validCodes == LegacyValidCodes(rows)
  {
    ghost var codePairs := CodePairs(rows);
    ghost var namePairs := NamePairs(rows);
    codeToName, nameToCode := map[], map[];
    var codes: set<string> := {};
    var i := 0;
    while i < |rows|
      invariant 0 <= i <= |rows|
      invariant codeToName == ToMap(codePairs[..i]) && nameToCode == ToMap(namePairs[..i])
      invariant codes == codeToName.Keys
    {
      ToMapStep(codePairs, i);
      ToMapStep(namePairs, i);
      var code := Classification.FormCode(rows[i].code);
      var key := LegacyFormKey(rows[i].name);
      codeToName := codeToName[code := key];
      nameToCode := nameToCode[key := code];
      codes := codes + {code};
      i := i + 1;
    }
    assert codePairs[..i] == codePairs && namePairs[..i] == namePairs;
    validCodes := codes + {"unknown"};
  }

  /** The valid codes are "unknown" and the codes of the rows; every code a name maps to is
      valid. */
  lemma LegacyFormsConsistent(rows: seq<Classification.FormRow>, c: string, n: string)
    ensures c in LegacyValidCodes(rows) <==> c == "unknown" || exists i :: 0 <= i < |rows| && CodePairs(rows)[i].0 == c
    ensures n in ToMap(NamePairs(rows)) ==> ToMap(NamePairs(rows))[n] in LegacyValidCodes(rows)
  {
    ToMapKeys(CodePairs(rows));
    var names := NamePairs(rows);
    if n in ToMap(names) {
      ToMapLastWins(names, n);
      var i :| LastWithKey(names, i, n) && ToMap(names)[n] == names[i].1;
      assert CodePairs(rows)[i].0 == names[i].1;
    }
  }

  // ----------------------------------------------------------------------------------------------
  // The older page classification
  // ----------------------------------------------------------------------------------------------

  /** One OCR page with the two replies the older classifier may ask for: the code, and (when the
      code is not recognised) the inferred document name. */
  datatype LegacyPage = LegacyPage(pageNo: int, text: Option<string>, codeReply: Classification.Reply,
                                   nameReply: Classification.Reply)

  /** The classification row written for a page. */
  datatype LegacyRow = LegacyRow(pageNo: int, code: string, name: string, text: Option<string>, isExternal: bool)

  /** The code read from the first reply: stripped and upper-cased, or "unknown" when the call
      raised. */
  function ReadCode(reply: Classification.Reply): string {
    match reply
    case Raised => "unknown"
    case Answer(content) => ToUpper(Trim(content))
  }

  /** The row for one page, or the exception that escapes classify_pages: empty text is
      unknown/unknown and not external; a recognised code keeps its form name; anything else
      asks for a name, whose mapped code (or "unknown") is written with is_external exactly when
      the name maps to no code. The second call is not guarded, so its failure raises. */
  function ClassifyPage(codeToName: map<string, string>, nameToCode: map<string, string>, valid: set<string>,
                        p: LegacyPage): (r: Result<LegacyRow, string>)
    requires forall c :: c in valid && c != "unknown" ==> c in codeToName
    ensures p.text.None? || p.text == Some("") ==> r == Ok(LegacyRow(p.pageNo, "unknown", "unknown", p.text, false))
    ensures r.Ok? ==> r.value.pageNo == p.pageNo && r.value.text == p.text
    ensures r.Err? <==> p.text.Some? && p.text.value != "" && !(ReadCode(p.codeReply) in valid && ReadCode(p.codeReply) != "unknown") &&
                        p.nameReply.Raised?
    ensures p.text.Some? && p.text.value != "" && ReadCode(p.codeReply) in valid && ReadCode(p.codeReply) != "unknown" ==>
      r == Ok(LegacyRow(p.pageNo, ReadCode(p.codeReply), codeToName[ReadCode(p.codeReply)], p.text, false))
    ensures p.text.Some? && p.text.value != "" && !(ReadCode(p.codeReply) in valid && ReadCode(p.codeReply) != "unknown") &&
            p.nameReply.Answer? ==>
      var name := ReplaceChar(ToLower(Trim(p.nameReply.content)), ' ', '_');
      r.Ok? && r.value.name == name && (r.value.isExternal <==> name !in nameToCode) &&
      (name in nameToCode && nameToCode[name] != "" ==> r.value.code == nameToCode[name]) &&
      (name !in nameToCode || nameToCode[name] == "" ==> r.value.code == "unknown")
  {
    if p.text.None? || p.text.value == "" then Ok(LegacyRow(p.pageNo, "unknown", "unknown", p.text, false))
    else
      var code := ReadCode(p.codeReply);
      if code in valid && code != "unknown" then Ok(LegacyRow(p.pageNo, code, codeToName[code], p.text, false))
      else
        match p.nameReply
        case Raised => Err("inference call failed")
        case Answer(content) =>
          var name := ReplaceChar(ToLower(Trim(content)), ' ', '_');
          var mapped := if name in nameToCode then Some(nameToCode[name]) else None;
          var written := if mapped.Some? && mapped.value != "" then mapped.value else "unknown";
          Ok(LegacyRow(p.pageNo, written, name, p.text, mapped.None?))
  }

  /** A recognised code is written with its form name and is never external; an external page
      is written as "unknown"; every written code is "unknown" or a code the name map yields. */
  lemma ClassifyPageRules(codeToName: map<string, string>, nameToCode: map<string, string>, valid: set<string>, p: LegacyPage)
    requires forall c :: c in valid && c != "unknown" ==> c in codeToName
    requires forall n :: n in nameToCode ==> nameToCode[n] in valid
    requires "unknown" in valid
    ensures var r := ClassifyPage(codeToName, nameToCode, valid, p);
      var code := ReadCode(p.codeReply);
      (p.text.Some? && p.text.value != "" && code in valid && code != "unknown" ==>
         r == Ok(LegacyRow(p.pageNo, code, codeToName[code], p.text, false))) &&
      (r.Ok? && r.value.isExternal ==> r.value.code == "unknown") &&
      (r.Ok? ==> r.value.code in valid)
  {
  }

  /** classify_pages' effect: the rows of the pages before the first page whose name inference
      raises, and whether one did. */
  function ClassifyAll(codeToName: map<string, string>, nameToCode: map<string, string>, valid: set<string>,
                       pages: seq<LegacyPage>): (r: (seq<LegacyRow>, bool))
    requires forall c :: c in valid && c != "unknown" ==> c in codeToName
    ensures |r.0| <= |pages|
    ensures !r.1 ==> |r.0| == |pages|
    ensures r.1 ==> |r.0| < |pages|
  {
    if |pages| == 0 then ([], false)
    else
      var n := |pages| - 1;
      var before := ClassifyAll(codeToName, nameToCode, valid, pages[..n]);
      if before.1 then before
      else
        match ClassifyPage(codeToName, nameToCode, valid, pages[n])
        case Err(_) => (before.0, true)
        case Ok(row) => (before.0 + [row], false)
  }

  /** The rows written are those of the first pages, and when the run raised, it was the next
      page's name inference that did. */
  lemma {:induction false} ClassifyAllRows(codeToName: map<string, string>, nameToCode: map<string, string>, valid: set<string>,
                                           pages: seq<LegacyPage>)
    requires forall c :: c in valid && c != "unknown" ==> c in codeToName
    ensures var r := ClassifyAll(codeToName, nameToCode, valid, pages);
      (forall k :: 0 <= k < |r.0| ==> ClassifyPage(codeToName, nameToCode, valid, pages[k]) == Ok(r.0[k])) &&
      (r.1 ==> ClassifyPage(codeToName, nameToCode, valid, pages[|r.0|]).Err?)
  {
    if |pages| > 0 {
      var n := |pages| - 1;
      ClassifyAllRows(codeToName, nameToCode, valid, pages[..n]);
      var before := ClassifyAll(codeToName, nameToCode, valid, pages[..n]);
      forall k | 0 <= k < |before.0| ensures pages[k] == pages[..n][k] {
      }
      if !before.1 {
        assert |before.0| == n;
        var last := ClassifyPage(codeToName, nameToCode, valid, pages[n]);
        assert ClassifyAll(codeToName, nameToCode, valid, pages) ==
          if last.Err? then (before.0, true) else (before.0 + [last.value], false);
      }
    }
  }

  /** One more page after a run that has not raised. */
  lemma ClassifyAllStep(codeToName: map<string, string>, nameToCode: map<string, string>, valid: set<string>,
                        pages: seq<LegacyPage>, i: nat)
    requires forall c :: c in valid && c != "unknown" ==> c in codeToName
    requires i < |pages| && !ClassifyAll(codeToName, nameToCode, valid, pages[..i]).1
    ensures var before := ClassifyAll(codeToName, nameToCode, valid, pages[..i]).0;
      ClassifyAll(codeToName, nameToCode, valid, pages[..i + 1]) ==
        match ClassifyPage(codeToName, nameToCode, valid, pages[i])
        case Err(_) => (before, true)
        case Ok(row) => (before + [row], false)
  {
    assert pages[..i + 1][..i] == pages[..i];
  }

  /** Once a page raises, the later pages change nothing. */
  lemma {:induction false} ClassifyAllStops(codeToName: map<string, string>, nameToCode: map<string, string>, valid: set<string>,
                                            pages: seq<LegacyPage>, i: nat)
    requires forall c :: c in valid && c != "unknown" ==> c in codeToName
    requires i <= |pages| && ClassifyAll(codeToName, nameToCode, valid, pages[..i]).1
    ensures ClassifyAll(codeToName, nameToCode, valid, pages) == ClassifyAll(codeToName, nameToCode, valid, pages[..i])
  {
    if i < |pages| {
      var n := |pages| - 1;
      assert pages[..n][..i] == pages[..i];
      ClassifyAllStops(codeToName, nameToCode, valid, pages[..n], i);
    } else {
      assert pages[..i] == pages;
    }
  }

  /** OF_classification as the older classifier fills it. */
  class LegacyClassificationTable {
    var rows: seq<LegacyRow>

    constructor ()
      ensures rows == []
    {
      rows := [];
    }

    /** The older classify_pages over the OCR pages of one document, with the forms already
        loaded; the name inference's failure stops the loop and propagates. */
    method ClassifyPages(codeToName: map<string, string>, nameToCode: map<string, string>, valid: set<string>,
                         pages: seq<LegacyPage>) returns (raised: bool)
      requires forall c :: c in valid && c != "unknown" ==> c in codeToName
      modifies this
      ensures var run := ClassifyAll(codeToName, nameToCode, valid, pages);
        rows == old(rows) + run.0 && raised == run.1
    {
      var i := 0;
      while i < |pages|
        invariant 0 <= i <= |pages|
        invariant !ClassifyAll(codeToName, nameToCode, valid, pages[..i]).1
        invariant rows == old(rows) + ClassifyAll(codeToName, nameToCode, valid, pages[..i]).0
      {
        ClassifyAllStep(codeToName, nameToCode, valid, pages, i);
        var r := ClassifyPage(codeToName, nameToCode, valid, pages[i]);
        if r.Err? {
          ClassifyAllStops(codeToName, nameToCode, valid, pages, i + 1);
          return true;
        }
        rows := rows + [r.value];
        i := i + 1;
      }
      assert pages[..i] == pages;
      return false;
    }
  }

  // ----------------------------------------------------------------------------------------------
  // The older product detection
  // ----------------------------------------------------------------------------------------------

  const LegacyTradeDocs: set<string> := {"letter_of_credit", "Bill_of_Lading", "bill_of_exchange", "invoice",
                                         "Paking_List", "Certificate_of_Origin", "AirWayBill", "sea_way_Bill"}
  const LegacyInsuranceDocs: set<string> := {"POL", "POLICY", "INS_POLICY", "INS_CERT", "CLAIM", "CLAIM_FORM", "ENDORSEMENT"}
  const LegacyRfoDocs: set<string> := {"KYC", "APPLICATION", "CONSENT", "UNDERTAKING"}

  /** The older detect_product: Trade Finance, then Insurance, then RFO, else Unknown. */
  function LegacyDetectProduct(codes: set<string>): (r: string)
    ensures r == "Trade Finance" <==> codes * LegacyTradeDocs != {}
    ensures r == "Insurance" <==> codes * LegacyTradeDocs == {} && codes * LegacyInsuranceDocs != {}
    ensures r == "RFO" <==> codes * LegacyTradeDocs == {} && codes * LegacyInsuranceDocs == {} && codes * LegacyRfoDocs != {}
    ensures r == "Unknown" <==> codes * (LegacyTradeDocs + LegacyInsuranceDocs + LegacyRfoDocs) == {}
  {
    if codes * LegacyTradeDocs != {} then "Trade Finance"
    else if codes * LegacyInsuranceDocs != {} then "Insurance"
    else if codes * LegacyRfoDocs != {} then "RFO"
    else "Unknown"
  }

  /** Every listed name other than the three all-lower-case trade documents holds an upper-case
      letter. */
  lemma MixedCaseLegacyNames(c: string)
    requires c in LegacyTradeDocs - {"letter_of_credit", "bill_of_exchange", "invoice"} + LegacyInsuranceDocs + LegacyRfoDocs
    ensures !HasNoUpper(c)
  {
    if c == "sea_way_Bill" {
      assert IsUpper(c[8]);
    } else {
      assert IsUpper(c[0]);
    }
  }

  /** Classified names are lower-case, so of the trade documents only the three all-lower-case
      entries can ever match, and Insurance and RFO never can. */
  lemma LowerCaseNamesLegacy(names: set<string>)
    requires forall c :: c in names ==> HasNoUpper(c)
    ensures LegacyDetectProduct(names) == "Trade Finance" <==>
      names * {"letter_of_credit", "bill_of_exchange", "invoice"} != {}
    ensures LegacyDetectProduct(names) == "Trade Finance" || LegacyDetectProduct(names) == "Unknown"
  {
    forall c | c in names && c in LegacyTradeDocs - {"letter_of_credit", "bill_of_exchange", "invoice"} + LegacyInsuranceDocs + LegacyRfoDocs
      ensures false
    {
      MixedCaseLegacyNames(c);
    }
    assert names * LegacyInsuranceDocs == {};
    assert names * LegacyRfoDocs == {};
    assert names * LegacyTradeDocs == names * {"letter_of_credit", "bill_of_exchange", "invoice"};
  }
}

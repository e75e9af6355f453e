/** The immutable summary written once a document's final OCR is approved: the product the
    classified documents belong to, the sorted list of document names, and the approved
    snapshot. */
module DocumentSummary {
  import opened Wrappers
  import opened Text
  import opened Lists

  // ----------------------------------------------------------------------------------------------
  // Product detection
  // ----------------------------------------------------------------------------------------------

  const TradeDocs: set<string> := {"letter_of_credit", "bill_of_lading", "bill_of_exchange", "invoice",
                                   "packing_list", "certificate_of_origin", "air_waybill", "sea_way_bill"}
  const InsuranceDocs: set<string> := {"POL", "POLICY", "INS_POLICY", "INS_CERT", "CLAIM", "CLAIM_FORM", "ENDORSEMENT"}
  const RfoDocs: set<string> := {"KYC", "APPLICATION", "CONSENT", "UNDERTAKING"}

  /** detect_product: the first category, in the order Trade Finance, Insurance, RFO, that
      shares a code with the input; "Unknown" when none does. */
  function DetectProduct(codes: set<string>): (r: string)
    ensures r == "Trade Finance" <==> codes * TradeDocs != {}
    ensures r == "Insurance" <==> codes * TradeDocs == {} && codes * InsuranceDocs != {}
    ensures r == "RFO" <==> codes * TradeDocs == {} && codes * InsuranceDocs == {} && codes * RfoDocs != {}
    ensures r == "Unknown" <==> codes * (TradeDocs + InsuranceDocs + RfoDocs) == {}
  {
    if codes * TradeDocs != {} then "Trade Finance"
    else if codes * InsuranceDocs != {} then "Insurance"
    else if codes * RfoDocs != {} then "RFO"
    else "Unknown"
  }

  /** Every insurance and RFO code contains an upper-case letter. */
  lemma UpperCaseCodes(c: string)
    requires c in InsuranceDocs + RfoDocs
    ensures !HasNoUpper(c)
  {
    assert IsUpper(c[0]);
  }

  /** Lower-cased names can never match the upper-case insurance and RFO codes, so a summary's
      product is always "Trade Finance" or "Unknown". */
  lemma LowerCaseNamesAreTradeOrUnknown(codes: set<string>)
    requires forall c :: c in codes ==> HasNoUpper(c)
    ensures DetectProduct(codes) == "Trade Finance" || DetectProduct(codes) == "Unknown"
  {
    forall c | c in codes && c in InsuranceDocs + RfoDocs ensures false {
      UpperCaseCodes(c);
    }
    assert codes * InsuranceDocs == {};
    assert codes * RfoDocs == {};
  }

  // ----------------------------------------------------------------------------------------------
  // Document list
  // ----------------------------------------------------------------------------------------------

  /** `{r[0].lower() for r in rows}` over the classified names other than 'unknown'. */
  function LoweredNames(classified: seq<string>): (r: seq<string>)
    ensures forall k :: 0 <= k < |r| ==> HasNoUpper(r[k])
    ensures forall x :: x in r <==> exists k :: 0 <= k < |classified| && classified[k] != "unknown" && ToLower(classified[k]) == x
  {
    if |classified| == 0 then []
    else
      var rest := LoweredNames(classified[1..]);
      var here := if classified[0] != "unknown" then [ToLower(classified[0])] else [];
      forall x ensures x in rest <==> exists k :: 1 <= k < |classified| && classified[k] != "unknown" && ToLower(classified[k]) == x {
        if x in rest {
          var k :| 0 <= k < |classified[1..]| && classified[1..][k] != "unknown" && ToLower(classified[1..][k]) == x;
          assert classified[k + 1] == classified[1..][k];
        }
        if exists k :: 1 <= k < |classified| && classified[k] != "unknown" && ToLower(classified[k]) == x {
          var k :| 1 <= k < |classified| && classified[k] != "unknown" && ToLower(classified[k]) == x;
          assert classified[1..][k - 1] == classified[k];
        }
      }
      here + rest
  }

  /** `",".join(sorted(document_names))` */
  function DocumentList(classified: seq<string>): string {
    Join(SortedSet(LoweredNames(classified)), ",")
  }

  /** The document list does not depend on the order, or the repetition, of the classification
      rows: only on which names occur. */
  lemma DocumentListOrderFree(a: seq<string>, b: seq<string>)
    requires forall x :: x in a <==> x in b
    ensures DocumentList(a) == DocumentList(b)
  {
    var la := LoweredNames(a);
    var lb := LoweredNames(b);
    forall x ensures x in la <==> x in lb {
      if x in la {
        var k :| 0 <= k < |a| && a[k] != "unknown" && ToLower(a[k]) == x;
        assert a[k] in b;
        var j :| 0 <= j < |b| && b[j] == a[k];
      }
      if x in lb {
        var k :| 0 <= k < |b| && b[k] != "unknown" && ToLower(b[k]) == x;
        assert b[k] in a;
        var j :| 0 <= j < |a| && a[j] == b[k];
      }
    }
    SortedUnique(SortedSet(la), SortedSet(lb));
  }

  /** The names in the document list are distinct, ascending and lower-case. */
  lemma DocumentListSorted(classified: seq<string>)
    ensures var xs := SortedSet(LoweredNames(classified));
      StrictlySorted(xs) && forall k :: 0 <= k < |xs| ==> HasNoUpper(xs[k])
  {
    var xs := SortedSet(LoweredNames(classified));
    forall k | 0 <= k < |xs| ensures HasNoUpper(xs[k]) {
      assert xs[k] in LoweredNames(classified);
    }
  }

  // ----------------------------------------------------------------------------------------------
  // Creating the summary
  // ----------------------------------------------------------------------------------------------

  /** A row of OF_document_summary. */
  datatype Summary = Summary(caseId: string, docId: string, filePath: string, documentName: string,
                             product: string, documentList: string, documentsJson: string,
                             approvedVersion: nat, approvedBy: Option<string>)

  /** The row of OF_final_ocr read for the summary. */
  datatype FinalRow = FinalRow(documentsJson: string, status: string, version: nat, lastEditedBy: Option<string>)

  /** What create_document_summary reads, by doc_id: the job's (case_id, file_path), the draft's
      document name, the classified names and the final-OCR row. */
  datatype Sources = Sources(jobs: map<string, (string, string)>, drafts: map<string, string>,
                             classifications: map<string, seq<string>>, finals: map<string, FinalRow>)

  predicate HasSummary(summaries: seq<Summary>, docId: string) {
    exists k :: 0 <= k < |summaries| && summaries[k].docId == docId
  }

  predicate UniqueDocIds(summaries: seq<Summary>) {
    forall i, j :: 0 <= i < j < |summaries| ==> summaries[i].docId != summaries[j].docId
  }

  /** The classified names of a document; none when it has no classification rows. */
  function ClassifiedOf(src: Sources, docId: string): seq<string> {
    if docId in src.classifications then src.classifications[docId] else []
  }

  /** The names as a set. */
  function NameSet(names: seq<string>): set<string> {
    set k | 0 <= k < |names| :: names[k]
  }

  /** The summary a document gets, or why it gets none: the job metadata must exist (otherwise
      the unpacking of the missing row fails) and the final OCR must be APPROVED. */
  function NewSummary(docId: string, src: Sources): (r: Result<Summary, string>)
    ensures r.Err? <==> docId !in src.jobs || docId !in src.finals || src.finals[docId].status != "APPROVED"
    ensures r.Ok? ==>
      var f := src.finals[docId];
      r.value.docId == docId && r.value.documentsJson == f.documentsJson &&
      r.value.approvedVersion == f.version && r.value.approvedBy == f.lastEditedBy &&
      r.value.caseId == src.jobs[docId].0 && r.value.filePath == src.jobs[docId].1 &&
      r.value.documentName == (if docId in src.drafts then src.drafts[docId] else "") &&
      r.value.documentList == DocumentList(ClassifiedOf(src, docId)) &&
      r.value.product == DetectProduct(NameSet(LoweredNames(ClassifiedOf(src, docId)))) &&
      (r.value.product == "Trade Finance" || r.value.product == "Unknown")
  {
    if docId !in src.jobs then Err("cannot unpack non-iterable NoneType object")
    else
      var (caseId, filePath) := src.jobs[docId];
      var name := if docId in src.drafts then src.drafts[docId] else "";
      var classified := ClassifiedOf(src, docId);
      var codes := NameSet(LoweredNames(classified));
      LowerCaseNamesAreTradeOrUnknown(codes);
      if docId !in src.finals || src.finals[docId].status != "APPROVED" then Err("Document not approved yet")
      else
        var f := src.finals[docId];
        Ok(Summary(caseId, docId, filePath, name, DetectProduct(codes), DocumentList(classified),
                   f.documentsJson, f.version, f.lastEditedBy))
  }

  /** create_document_summary's effect on the summary table. */
  function SummaryStep(summaries: seq<Summary>, docId: string, src: Sources): (r: Result<seq<Summary>, string>)
    ensures HasSummary(summaries, docId) ==> r == Ok(summaries)
    ensures !HasSummary(summaries, docId) ==>
      match NewSummary(docId, src)
      case Err(e) => r == Err(e)
      case Ok(s) => r == Ok(summaries + [s])
  {
    if HasSummary(summaries, docId) then Ok(summaries)
    else
      match NewSummary(docId, src)
      case Err(e) => Err(e)
      case Ok(s) => Ok(summaries + [s])
  }

  /** There is never more than one summary per document. */
  lemma SummaryStepKeepsUnique(summaries: seq<Summary>, docId: string, src: Sources)
    requires UniqueDocIds(summaries)
    ensures SummaryStep(summaries, docId, src).Ok? ==> UniqueDocIds(SummaryStep(summaries, docId, src).value)
  {
  }

  /** Creating the summary a second time changes nothing. */
  lemma SummaryStepIdempotent(summaries: seq<Summary>, docId: string, src: Sources)
    requires SummaryStep(summaries, docId, src).Ok?
    ensures var once := SummaryStep(summaries, docId, src).value;
      HasSummary(once, docId) && SummaryStep(once, docId, src) == Ok(once)
  {
    var once := SummaryStep(summaries, docId, src).value;
    if !HasSummary(summaries, docId) {
      assert once[|once| - 1].docId == docId;
    }
  }

  /** OF_document_summary. */
  class SummaryTable {
    var summaries: seq<Summary>

    constructor ()
      ensures summaries == []
    {
      summaries := [];
    }

    /** create_document_summary: an existing summary stops it early; a failure raises and
        writes nothing; otherwise the one new summary is inserted. */
    method CreateDocumentSummary(docId: string, src: Sources) returns (r: Result<(), string>)
      modifies this
      ensures var step := SummaryStep(old(summaries), docId, src);
        (r.Err? <==> step.Err?) && (step.Ok? ==> summaries == step.value) && (step.Err? ==> summaries == old(summaries))
    {
      if exists k :: 0 <= k < |summaries| && summaries[k].docId == docId {
        return Ok(());
      }
      var s := NewSummary(docId, src);
      if s.Err? {
        return Err(s.error);
      }
      summaries := summaries + [s.value];
      return Ok(());
    }
  }
}

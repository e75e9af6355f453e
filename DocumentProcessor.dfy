/** The end-to-end processing of one uploaded document: draft, OCR (or direct text ingestion),
    classification and final record, with the job status and audit trail written around them.
    Every call the pipeline makes is recorded, in order, as an effect; a call that raises
    records nothing and sends control to the error handler. As written the pipeline also calls
    the summary service, with arguments it does not take; the pipeline modelled here leaves that
    call out, and the summary is made when the final OCR is approved. */
module DocumentProcessor {
  import opened Wrappers
  import opened Text
  import FinalOcr
  import DocumentSummary

  /** `p.lower().endswith(".txt")` */
  function IsTextFile(p: string): (r: bool)
    ensures r <==> |p| >= 4 && ToLower(p)[|p| - 4..] == ".txt"
  {
    var l := ToLower(p);
    |l| >= 4 && l[|l| - 4..] == ".txt"
  }

  /** The test ignores case: upper-casing the path does not change it. */
  lemma IsTextFileIgnoresCase(p: string)
    ensures IsTextFile(ToUpper(p)) == IsTextFile(p)
  {
    var u := ToUpper(p);
    forall i | 0 <= i < |p| ensures ToLower(u)[i] == ToLower(p)[i] {
      assert LowerChar(UpperChar(p[i])) == LowerChar(p[i]);
    }
    assert ToLower(u) == ToLower(p);
  }

  /** What one call of the pipeline leaves behind. */
  datatype Effect =
    | Audit(action: string, message: string, actor: string)    // write_audit_log
    | JobStatus(status: string, error: Option<string>)         // update_job_status
    | Draft(sessionId: string, documentName: string, filePath: string)
    | OcrPage(pageNo: int, text: string, stamp: string)        // insert_ocr_page (text files)
    | VisionOcr(filePath: string)                              // perform_ocr_with_vision
    | Classified(filePath: string)                             // classify_pages
    | FinalRecord(filePath: string, wholeText: string)         // create_final_record
    | SummaryCreated(docId: string)                            // create_document_summary
    | ErrorLog(step: string, message: string)                  // write_error_log

  /** The text the final record is built from: the file itself for a text file, else the OCR
      result. */
  function WholeText(filePath: string, fileText: string, ocrText: string): string {
    if IsTextFile(filePath) then fileText else ocrText
  }

  /** The first ten calls of the try block: start, draft, OCR or text ingestion,
      classification and the final record, each with its status or audit record. */
  function Opening(filePath: string, documentName: string, sessionId: string,
                   fileText: string, ocrText: string): (r: seq<Effect>)
    ensures |r| == 10
  {
    [ Audit("PROCESSING_STARTED", "Document processing started", "SYSTEM"),
      JobStatus("PROCESSING", None),
      Draft(sessionId, documentName, filePath),
      Audit("OCR_STARTED", "OCR started", "OCR"),
      if IsTextFile(filePath) then OcrPage(1, fileText, "N/A") else VisionOcr(filePath),
      Audit("OCR_COMPLETED", "OCR completed", "OCR"),
      Classified(filePath),
      Audit("CLASSIFICATION_COMPLETED", "Classification completed", "CLASSIFICATION"),
      FinalRecord(filePath, WholeText(filePath, fileText, ocrText)),
      Audit("FINAL_JSON_CREATED", "Final JSON created", "SYSTEM") ]
  }

  /** The last two calls of the try block: COMPLETED and the closing audit. */
  const Closing: seq<Effect> :=
    [JobStatus("COMPLETED", None), Audit("PROCESSING_COMPLETED", "Document processed successfully", "SYSTEM")]

  /** The calls of the try block as written, in order: the summary call sits between the final
      record and COMPLETED. */
  function Plan(docId: string, filePath: string, documentName: string, sessionId: string,
                fileText: string, ocrText: string): (r: seq<Effect>)
    ensures |r| == 13 && r[SummaryCall] == SummaryCreated(docId)
  {
    Opening(filePath, documentName, sessionId, fileText, ocrText) + [SummaryCreated(docId)] + Closing
  }

  /** The calls of the try block as intended: the same calls without the summary call. The
      summary needs an APPROVED final OCR, which a freshly created record never is, and it is
      created when the record is approved instead. */
  function CorrectedPlan(filePath: string, documentName: string, sessionId: string,
                         fileText: string, ocrText: string): (r: seq<Effect>)
    ensures |r| == 12
    ensures forall docId :: r == Plan(docId, filePath, documentName, sessionId, fileText, ocrText)[..SummaryCall] +
                                 Plan(docId, filePath, documentName, sessionId, fileText, ocrText)[SummaryCall + 1..]
    ensures forall i :: 0 <= i < |r| ==> !r[i].SummaryCreated?
  {
    Opening(filePath, documentName, sessionId, fileText, ocrText) + Closing
  }

  /** The except block: error log, failure audit, FAILED status (then the exception is re-raised). */
  function FailureTail(message: string): seq<Effect> {
    [ErrorLog("DOCUMENT_PROCESSOR", message), Audit("PROCESSING_FAILED", message, "SYSTEM"), JobStatus("FAILED", Some(message))]
  }

  /** The effects of a run in which call number failAt raises with this message (no call raises
      when failAt is past the end of the plan). */
  function Trail(plan: seq<Effect>, failAt: nat, message: string): seq<Effect> {
    if failAt < |plan| then plan[..failAt] + FailureTail(message) else plan
  }

  /** The effect sets the job status to s. */
  predicate SetsStatus(e: Effect, s: string) {
    e.JobStatus? && e.status == s
  }

  /** A run of the intended pipeline without failure sets the job PROCESSING (second call) and
      then COMPLETED (eleventh) and no other status; it audits the six milestones in order and
      nothing else; and the steps run draft, OCR, classification, final record, with no summary. */
  lemma SuccessfulRun(filePath: string, documentName: string, sessionId: string,
                      fileText: string, ocrText: string, failAt: nat, message: string)
    requires failAt >= 12
    ensures var t := Trail(CorrectedPlan(filePath, documentName, sessionId, fileText, ocrText), failAt, message);
      (forall i :: 0 <= i < |t| && t[i].JobStatus? ==> i == 1 || i == 10) &&
      t[1] == JobStatus("PROCESSING", None) && t[10] == JobStatus("COMPLETED", None) &&
      (forall i :: 0 <= i < |t| && t[i].Audit? ==> i in {0, 3, 5, 7, 9, 11}) &&
      [t[0].action, t[3].action, t[5].action, t[7].action, t[9].action, t[11].action] ==
        ["PROCESSING_STARTED", "OCR_STARTED", "OCR_COMPLETED", "CLASSIFICATION_COMPLETED", "FINAL_JSON_CREATED", "PROCESSING_COMPLETED"] &&
      t[2].Draft? && (t[4].OcrPage? || t[4].VisionOcr?) && t[6].Classified? && t[8].FinalRecord? &&
      forall i :: 0 <= i < |t| ==> !t[i].SummaryCreated?
  {
  }

  /** The last status the effects set is s. */
  predicate EndsWithStatus(t: seq<Effect>, s: string) {
    exists i :: 0 <= i < |t| && SetsStatus(t[i], s) && forall j :: i < j < |t| ==> !t[j].JobStatus?
  }

  /** A run of the intended pipeline in which some call raises ends with the error log, the
      PROCESSING_FAILED audit and the FAILED status carrying the message, in that order.
      COMPLETED is written only when the very last call (the PROCESSING_COMPLETED audit) is the
      one that raises, and is then overwritten by FAILED. */
  lemma FailedRun(filePath: string, documentName: string, sessionId: string,
                  fileText: string, ocrText: string, failAt: nat, message: string)
    requires failAt < 12
    ensures var t := Trail(CorrectedPlan(filePath, documentName, sessionId, fileText, ocrText), failAt, message);
      |t| == failAt + 3 &&
      t[|t| - 3] == ErrorLog("DOCUMENT_PROCESSOR", message) &&
      t[|t| - 2] == Audit("PROCESSING_FAILED", message, "SYSTEM") &&
      t[|t| - 1] == JobStatus("FAILED", Some(message)) && EndsWithStatus(t, "FAILED") &&
      forall i :: 0 <= i < |t| && SetsStatus(t[i], "COMPLETED") ==> i == 10 && failAt == 11
  {
    var plan := CorrectedPlan(filePath, documentName, sessionId, fileText, ocrText);
    var t := Trail(plan, failAt, message);
    forall i | 0 <= i < |t| && SetsStatus(t[i], "COMPLETED") ensures i == 10 && failAt == 11 {
      assert i < failAt && t[i] == plan[i];
    }
    assert SetsStatus(t[|t| - 1], "FAILED");
  }

  /** A text file is ingested as exactly one OCR page numbered 1 with stamp "N/A", and the final
      record is built from the file's own text. */
  lemma TextFileIsOnePage(filePath: string, documentName: string, sessionId: string,
                          fileText: string, ocrText: string)
    requires IsTextFile(filePath)
    ensures var plan := CorrectedPlan(filePath, documentName, sessionId, fileText, ocrText);
      (forall i :: 0 <= i < |plan| && plan[i].OcrPage? ==> i == 4) &&
      plan[4] == OcrPage(1, fileText, "N/A") && plan[8] == FinalRecord(filePath, fileText)
  {
  }

  // ----------------------------------------------------------------------------------------------
  // The summary call as written
  // ----------------------------------------------------------------------------------------------

  /** The pipeline passes (case_id, doc_id, file_path, document_name) to a service that takes
      doc_id alone. */
  const SummaryArgumentsPassed: nat := 4
  const SummaryParametersTaken: nat := 1

  /** Index of the summary call in the plan. */
  const SummaryCall: nat := 10

  /** As written, the summary call raises a TypeError on every run, so the first call to raise is
      the summary call at the latest. */
  function AsWrittenFailAt(failAt: nat): (r: nat)
    ensures r <= failAt && r <= SummaryCall
  {
    if SummaryArgumentsPassed != SummaryParametersTaken && failAt > SummaryCall then SummaryCall else failAt
  }

  /** As written, no run ever reaches COMPLETED, whatever the other calls do. */
  lemma AsWrittenNeverCompletes(docId: string, filePath: string, documentName: string, sessionId: string,
                                fileText: string, ocrText: string, failAt: nat, message: string)
    ensures var t := Trail(Plan(docId, filePath, documentName, sessionId, fileText, ocrText), AsWrittenFailAt(failAt), message);
      forall i :: 0 <= i < |t| ==> !SetsStatus(t[i], "COMPLETED")
  {
    var plan := Plan(docId, filePath, documentName, sessionId, fileText, ocrText);
    var t := Trail(plan, AsWrittenFailAt(failAt), message);
    forall i | 0 <= i < |t| ensures !SetsStatus(t[i], "COMPLETED") {
      if i < AsWrittenFailAt(failAt) {
        assert t[i] == plan[i];
      }
    }
  }

  /** Without the summary call, a run ends COMPLETED exactly when no call raises, and FAILED
      otherwise. */
  lemma CorrectedCompletesIffNoFailure(filePath: string, documentName: string, sessionId: string,
                                       fileText: string, ocrText: string, failAt: nat, message: string)
    ensures var t := Trail(CorrectedPlan(filePath, documentName, sessionId, fileText, ocrText), failAt, message);
      (EndsWithStatus(t, "COMPLETED") <==> failAt >= 12) && (EndsWithStatus(t, "FAILED") <==> failAt < 12)
  {
    var t := Trail(CorrectedPlan(filePath, documentName, sessionId, fileText, ocrText), failAt, message);
    if failAt >= 12 {
      SuccessfulRun(filePath, documentName, sessionId, fileText, ocrText, failAt, message);
      assert SetsStatus(t[10], "COMPLETED");
    } else {
      FailedRun(filePath, documentName, sessionId, fileText, ocrText, failAt, message);
    }
  }

  // ----------------------------------------------------------------------------------------------
  // Where the summary belongs
  // ----------------------------------------------------------------------------------------------

  /** The status column as the summary service reads it. */
  function StatusText(s: FinalOcr.Status): string {
    if s == FinalOcr.Approved then "APPROVED" else "DRAFT"
  }

  /** The summary service's view of OF_final_ocr agrees with the final-OCR tables: the same
      documents, each with its status, version and last editor. The text of the stored JSON is
      not compared: its serialisation is not modelled. */
  predicate ReadsFinals(finals: map<string, DocumentSummary.FinalRow>, t: FinalOcr.Tables) {
    finals.Keys == t.records.Keys &&
    forall d :: d in finals ==>
      finals[d].status == StatusText(t.records[d].status) &&
      finals[d].version == t.records[d].version && finals[d].lastEditedBy == t.records[d].lastEditedBy
  }

  /** Right after create_final_record the document's final OCR is a DRAFT, so summarising it by
      doc_id at that point of the pipeline raises for every document that has no summary yet:
      "Document not approved yet" whenever its job is known. */
  lemma SummaryAfterCreateRaises(t: FinalOcr.Tables, caseId: string, docId: string, filePath: string,
                                 wholeText: Option<string>, json: FinalOcr.Json,
                                 summaries: seq<DocumentSummary.Summary>, src: DocumentSummary.Sources)
    requires !DocumentSummary.HasSummary(summaries, docId)
    requires ReadsFinals(src.finals, FinalOcr.CreateStep(t, caseId, docId, filePath, wholeText, json))
    ensures DocumentSummary.SummaryStep(summaries, docId, src).Err?
    ensures docId in src.jobs ==> DocumentSummary.SummaryStep(summaries, docId, src) == Err("Document not approved yet")
  {
  }

  /** Once approve_final_ocr has run, the same call succeeds for a document whose job is known:
      exactly one summary is added, holding the approved version and naming the approver (the
      earlier approver when the record was already approved). */
  lemma SummaryAfterApprovalSucceeds(t: FinalOcr.Tables, docId: string, user: string,
                                     summaries: seq<DocumentSummary.Summary>, src: DocumentSummary.Sources)
    requires docId in t.records && docId in src.jobs && !DocumentSummary.HasSummary(summaries, docId)
    requires ReadsFinals(src.finals, FinalOcr.ApproveStep(t, docId, user).value)
    ensures var r := DocumentSummary.SummaryStep(summaries, docId, src);
      r.Ok? && |r.value| == |summaries| + 1 && r.value[..|summaries|] == summaries &&
      r.value[|summaries|].docId == docId &&
      r.value[|summaries|].approvedVersion == t.records[docId].version &&
      r.value[|summaries|].approvedBy ==
        (if t.records[docId].status == FinalOcr.Approved then t.records[docId].lastEditedBy else Some(user))
  {
  }

  // ----------------------------------------------------------------------------------------------
  // The pipeline
  // ----------------------------------------------------------------------------------------------

  /** The records the pipeline's calls leave, in the order they were made. */
  class Pipeline {
    var effects: seq<Effect>

    constructor ()
      ensures effects == []
    {
      effects := [];
    }

    /** One call of the try block, the k-th of the plan: it raises when it is the failing call. */
    method Call(ghost base: seq<Effect>, ghost plan: seq<Effect>, k: nat, failAt: nat, e: Effect) returns (ok: bool)
      requires k < |plan| && plan[k] == e && effects == base + plan[..k]
      modifies this
      ensures ok <==> k != failAt
      ensures effects == base + plan[..if ok then k + 1 else k]
    {
      ok := k != failAt;
      if ok {
        effects := effects + [e];
        assert plan[..k + 1] == plan[..k] + [e];
      }
    }

    /** The except block, after the calls before the failing one. */
    method Fail(ghost base: seq<Effect>, ghost plan: seq<Effect>, failAt: nat, message: string)
      requires failAt < |plan| && effects == base + plan[..failAt]
      modifies this
      ensures effects == base + Trail(plan, failAt, message)
    {
      effects := effects + [ErrorLog("DOCUMENT_PROCESSOR", message), Audit("PROCESSING_FAILED", message, "SYSTEM"),
                            JobStatus("FAILED", Some(message))];
    }

    /** process_document_task without the summary call: call number failAt (counting from 0 in
        the order of CorrectedPlan) raises with this message; the text file's content and the
        OCR result are inputs. A failure is re-raised as Err. */
    method ProcessDocumentTask(filePath: string, documentName: string, sessionId: string,
                               fileText: string, ocrText: string, failAt: nat, message: string)
      returns (r: Result<(), string>)
      modifies this
      ensures effects == old(effects) + Trail(CorrectedPlan(filePath, documentName, sessionId, fileText, ocrText), failAt, message)
      ensures r.Ok? <==> failAt >= 12
      ensures r.Err? ==> r.error == message
    {
      ghost var base := effects;
      ghost var plan := CorrectedPlan(filePath, documentName, sessionId, fileText, ocrText);
      r := Err(message);
      var ok := StartAndOcr(base, plan, filePath, documentName, sessionId, fileText, ocrText, failAt);
      if ok {
        ok := ClassifyAndRecord(base, plan, filePath, documentName, sessionId, fileText, ocrText, failAt);
      }
      if ok {
        ok := Complete(base, plan, filePath, documentName, sessionId, fileText, ocrText, failAt);
      }
      if !ok {
        Fail(base, plan, failAt, message);
        return;
      }
      assert plan[..12] == plan;
      r := Ok(());
    }

    /** Calls 0 to 4: start audit, PROCESSING, draft, OCR audit, and the OCR or text ingestion. */
    method StartAndOcr(ghost base: seq<Effect>, ghost plan: seq<Effect>, filePath: string,
                       documentName: string, sessionId: string, fileText: string, ocrText: string, failAt: nat)
      returns (ok: bool)
      requires plan == CorrectedPlan(filePath, documentName, sessionId, fileText, ocrText) && effects == base
      modifies this
      ensures ok ==> failAt >= 5 && effects == base + plan[..5]
      ensures !ok ==> failAt < 5 && effects == base + plan[..failAt]
    {
      assert plan[..0] == [];
      ok := Call(base, plan, 0, failAt, Audit("PROCESSING_STARTED", "Document processing started", "SYSTEM"));
      if !ok { return; }
      ok := Call(base, plan, 1, failAt, JobStatus("PROCESSING", None));
      if !ok { return; }
      ok := Call(base, plan, 2, failAt, Draft(sessionId, documentName, filePath));
      if !ok { return; }
      ok := Call(base, plan, 3, failAt, Audit("OCR_STARTED", "OCR started", "OCR"));
      if !ok { return; }
      if IsTextFile(filePath) {
        ok := Call(base, plan, 4, failAt, OcrPage(1, fileText, "N/A"));
      } else {
        ok := Call(base, plan, 4, failAt, VisionOcr(filePath));
      }
    }

    /** Calls 5 to 9: OCR audit, classification, final record and its audit. */
    method ClassifyAndRecord(ghost base: seq<Effect>, ghost plan: seq<Effect>, filePath: string,
                             documentName: string, sessionId: string, fileText: string, ocrText: string, failAt: nat)
      returns (ok: bool)
      requires plan == CorrectedPlan(filePath, documentName, sessionId, fileText, ocrText)
      requires failAt >= 5 && effects == base + plan[..5]
      modifies this
      ensures ok ==> failAt >= 10 && effects == base + plan[..10]
      ensures !ok ==> failAt < 10 && effects == base + plan[..failAt]
    {
      var wholeText := if IsTextFile(filePath) then fileText else ocrText;
      ok := Call(base, plan, 5, failAt, Audit("OCR_COMPLETED", "OCR completed", "OCR"));
      if !ok { return; }
      ok := Call(base, plan, 6, failAt, Classified(filePath));
      if !ok { return; }
      ok := Call(base, plan, 7, failAt, Audit("CLASSIFICATION_COMPLETED", "Classification completed", "CLASSIFICATION"));
      if !ok { return; }
      ok := Call(base, plan, 8, failAt, FinalRecord(filePath, wholeText));
      if !ok { return; }
      ok := Call(base, plan, 9, failAt, Audit("FINAL_JSON_CREATED", "Final JSON created", "SYSTEM"));
    }

    /** Calls 10 and 11: COMPLETED and the closing audit. */
    method Complete(ghost base: seq<Effect>, ghost plan: seq<Effect>, filePath: string,
                    documentName: string, sessionId: string, fileText: string, ocrText: string, failAt: nat)
      returns (ok: bool)
      requires plan == CorrectedPlan(filePath, documentName, sessionId, fileText, ocrText)
      requires failAt >= 10 && effects == base + plan[..10]
      modifies this
      ensures ok ==> failAt >= 12 && effects == base + plan[..12]
      ensures !ok ==> failAt < 12 && effects == base + plan[..failAt]
    {
      ok := Call(base, plan, 10, failAt, JobStatus("COMPLETED", None));
      if !ok { return; }
      ok := Call(base, plan, 11, failAt, Audit("PROCESSING_COMPLETED", "Document processed successfully", "SYSTEM"));
    }
  }
}

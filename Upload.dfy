/** The upload screen: session creation with its required-field check, the per-mode upload
    validation, the ordered submission of documents with abort on the first failure, the
    lifecycle document list and the session pickers. */
module Upload {
  import opened Wrappers
  import opened Text
  import opened Lists
  import opened SessionRecord

  // ----------------------------------------------------------------------------------------------
  // Session creation
  // ----------------------------------------------------------------------------------------------

  /** The eight inputs of the create-session form, as typed. */
  datatype SessionForm = SessionForm(
    cifNumber: string, customerId: string, lcNumber: string, instrument: string,
    lifecycle: string, accountName: string, customerName: string, customerType: string)

  const EmptyForm := SessionForm("", "", "", "", "", "", "", "")

  /** The body posted to the sessions endpoint; the optional fields are null when blank. */
  datatype SessionPayload = SessionPayload(
    cifNumber: string, customerId: Option<string>, customerName: string, accountName: Option<string>,
    customerType: string, lcNumber: string, instrument: Option<string>, lifecycle: string)

  /** `s.trim() || null` */
  function TrimOrNull(s: string): (r: Option<string>)
    ensures r.None? <==> IsBlank(s)
    ensures r.Some? ==> r.value == Trim(s) && r.value != "" && IsTrimmed(r.value)
  {
    var t := Trim(s);
    if t == "" then None else Some(t)
  }

  function BuildPayload(f: SessionForm): SessionPayload {
    SessionPayload(Trim(f.cifNumber), TrimOrNull(f.customerId), Trim(f.customerName), TrimOrNull(f.accountName),
                   Trim(f.customerType), Trim(f.lcNumber), TrimOrNull(f.instrument), Trim(f.lifecycle))
  }

  /** handleCreateSession's check: the payload is sent only when the five required fields are
      non-empty after trimming; every field is sent trimmed. */
  function CreateRequest(f: SessionForm): (r: Option<SessionPayload>)
    ensures r.None? <==> IsBlank(f.cifNumber) || IsBlank(f.customerName) || IsBlank(f.customerType) ||
                         IsBlank(f.lcNumber) || IsBlank(f.lifecycle)
    ensures r.Some? ==>
      var p := r.value;
      p.cifNumber == Trim(f.cifNumber) && p.customerName == Trim(f.customerName) &&
      p.customerType == Trim(f.customerType) && p.lcNumber == Trim(f.lcNumber) && p.lifecycle == Trim(f.lifecycle) &&
      p.cifNumber != "" && p.customerName != "" && p.customerType != "" && p.lcNumber != "" && p.lifecycle != "" &&
      (p.customerId.None? <==> IsBlank(f.customerId)) && (p.accountName.None? <==> IsBlank(f.accountName)) &&
      (p.instrument.None? <==> IsBlank(f.instrument)) &&
      p.customerId == TrimOrNull(f.customerId) && p.accountName == TrimOrNull(f.accountName) &&
      p.instrument == TrimOrNull(f.instrument)
  {
    var p := BuildPayload(f);
    if p.cifNumber == "" || p.customerName == "" || p.customerType == "" || p.lcNumber == "" || p.lifecycle == "" then None
    else Some(p)
  }

  /** The Create button is enabled when all eight untrimmed inputs are non-empty. */
  predicate CreateEnabled(f: SessionForm) {
    f.cifNumber != "" && f.customerId != "" && f.lcNumber != "" && f.instrument != "" &&
    f.lifecycle != "" && f.accountName != "" && f.customerName != "" && f.customerType != ""
  }

  /** Neither check implies the other: whitespace-only required fields pass the button but not
      the handler, and blank optional fields pass the handler but not the button. */
  lemma CreateChecksIncomparable()
    ensures var f := SessionForm(" ", "1", "LC1", "I", "L", "A", "N", "T");
            CreateEnabled(f) && CreateRequest(f).None?
    ensures var f := SessionForm("C", "", "LC1", "", "L", "", "N", "T");
            !CreateEnabled(f) && CreateRequest(f).Some?
  {
    var f := SessionForm(" ", "1", "LC1", "I", "L", "A", "N", "T");
    assert IsBlank(f.cifNumber);
    var g := SessionForm("C", "", "LC1", "", "L", "", "N", "T");
    assert !IsBlank(g.cifNumber) by { assert !IsSpace(g.cifNumber[0]); }
    assert !IsBlank(g.customerName) by { assert !IsSpace(g.customerName[0]); }
    assert !IsBlank(g.customerType) by { assert !IsSpace(g.customerType[0]); }
    assert !IsBlank(g.lcNumber) by { assert !IsSpace(g.lcNumber[0]); }
    assert !IsBlank(g.lifecycle) by { assert !IsSpace(g.lifecycle[0]); }
  }

  // ----------------------------------------------------------------------------------------------
  // Upload validation and the planned submissions
  // ----------------------------------------------------------------------------------------------

  datatype Mode = FileMode | CopyMode

  /** A pasted document: a name and its text. */
  datatype CopyDoc = CopyDoc(name: string, content: string)

  /** Every request the screen sends, in the order sent. */
  datatype Request =
    | CreateSession(payload: SessionPayload)
    | SaveCustomer(sessionId: string, customer: SessionPayload)
    | BulkUpload(product: string, sessionId: string, file: string)
    | TextUpload(sessionId: string, product: string, documentName: string, content: string)

  /** `doc.name.trim() && doc.content.trim()` */
  predicate IsComplete(d: CopyDoc) {
    !IsBlank(d.name) && !IsBlank(d.content)
  }

  /** uploadDocumentNew: throws without a session id, otherwise posts one file with product "LC". */
  function UploadDocumentNew(file: string, sessionId: string): (r: Result<Request, string>)
    ensures r.Err? <==> sessionId == ""
    ensures r.Ok? ==> r.value == BulkUpload("LC", sessionId, file)
  {
    if sessionId == "" then Err("Session ID is required") else Ok(BulkUpload("LC", sessionId, file))
  }

  /** The uploads of file mode: the main file first, then the supporting files in list order. */
  function FileRequests(sid: string, main: Option<string>, subs: seq<string>): (r: seq<Request>)
    requires sid != ""
    ensures |r| == (if main.Some? then 1 else 0) + |subs|
    ensures main.Some? ==> r[0] == BulkUpload("LC", sid, main.value)
    ensures forall k :: 0 <= k < |subs| ==> r[(if main.Some? then 1 else 0) + k] == BulkUpload("LC", sid, subs[k])
  {
    (if main.Some? then [UploadDocumentNew(main.value, sid).value] else []) +
    seq(|subs|, k requires 0 <= k < |subs| => UploadDocumentNew(subs[k], sid).value)
  }

  /** The text upload of one pasted document, trimmed, with product "trade". */
  function TextRequest(sid: string, d: CopyDoc): Request {
    TextUpload(sid, "trade", Trim(d.name), Trim(d.content))
  }

  /** A text upload as the copy mode sends it: trimmed, non-empty name and content, product "trade". */
  predicate WellFormedText(sid: string, r: Request) {
    r.TextUpload? && r.sessionId == sid && r.product == "trade" &&
    r.documentName != "" && r.content != "" && IsTrimmed(r.documentName) && IsTrimmed(r.content)
  }

  /** The supporting pasted documents that are complete, in list order; the others are skipped. */
  function SubTextRequests(sid: string, subs: seq<CopyDoc>): (r: seq<Request>)
    ensures |r| == Count(subs, IsComplete)
    ensures forall k :: 0 <= k < |r| ==> r[k] == TextRequest(sid, Filter(subs, IsComplete)[k])
    ensures forall k :: 0 <= k < |r| ==> WellFormedText(sid, r[k])
  {
    if |subs| == 0 then []
    else
      var rest := SubTextRequests(sid, subs[1..]);
      CountCons(subs, IsComplete);
      if IsComplete(subs[0]) then
        var t := TextRequest(sid, subs[0]);
        assert WellFormedText(sid, t);
        [t] + rest
      else rest
  }

  /** The uploads of copy mode: the main pasted document first when complete, then the complete
      supporting ones. */
  function CopyRequests(sid: string, main: CopyDoc, subs: seq<CopyDoc>): (r: seq<Request>)
    ensures |r| == (if IsComplete(main) then 1 else 0) + Count(subs, IsComplete)
    ensures IsComplete(main) ==> r[0] == TextRequest(sid, main) && r[1..] == SubTextRequests(sid, subs)
    ensures !IsComplete(main) ==> r == SubTextRequests(sid, subs)
    ensures forall k :: 0 <= k < |r| ==> WellFormedText(sid, r[k])
  {
    var tail := SubTextRequests(sid, subs);
    if IsComplete(main) then
      var t := TextRequest(sid, main);
      assert WellFormedText(sid, t);
      assert ([t] + tail)[1..] == tail;
      [t] + tail
    else tail
  }

  /** Some supporting pasted document is complete exactly when one of them is counted. */
  lemma {:induction false} SomeCompleteCounted(subs: seq<CopyDoc>)
    ensures (exists k :: 0 <= k < |subs| && IsComplete(subs[k])) <==> Count(subs, IsComplete) > 0
  {
    if |subs| > 0 {
      SomeCompleteCounted(subs[1..]);
      if exists k :: 0 <= k < |subs[1..]| && IsComplete(subs[1..][k]) {
        var k :| 0 <= k < |subs[1..]| && IsComplete(subs[1..][k]);
        assert IsComplete(subs[k + 1]);
      }
      if exists k :: 0 <= k < |subs| && IsComplete(subs[k]) {
        var k :| 0 <= k < |subs| && IsComplete(subs[k]);
        if k > 0 { assert IsComplete(subs[1..][k - 1]); }
      }
    }
  }

  /** The request i of a run succeeds; a missing reply counts as a failure. */
  predicate Succeeds(replies: seq<bool>, i: nat) {
    i < |replies| && replies[i]
  }

  /** The first of the n requests that fails. */
  function FirstFailure(replies: seq<bool>, n: nat): (r: Option<nat>)
    ensures r.Some? ==> r.value < n && !Succeeds(replies, r.value) && forall j :: 0 <= j < r.value ==> Succeeds(replies, j)
    ensures r.None? ==> forall j :: 0 <= j < n ==> Succeeds(replies, j)
  {
    if n == 0 then None
    else match FirstFailure(replies, n - 1)
      case Some(k) => Some(k)
      case None => if Succeeds(replies, n - 1) then None else Some(n - 1)
  }

  /** How many of n requests go out: all of them, or up to and including the first that throws. */
  function SentCount(replies: seq<bool>, n: nat): (c: nat)
    ensures c <= n
  {
    match FirstFailure(replies, n)
    case None => n
    case Some(k) => k + 1
  }

  // ----------------------------------------------------------------------------------------------
  // Lifecycles and the session pickers
  // ----------------------------------------------------------------------------------------------

  /** `Applicable_Documents ? Applicable_Documents.split(',').map(d => d.trim()) : []` */
  function RequiredDocuments(applicable: Option<string>): (r: seq<string>)
    ensures applicable == None || applicable == Some("") ==> r == []
    ensures applicable.Some? && applicable.value != "" ==>
      |r| == |Split(applicable.value, ',')| &&
      forall k :: 0 <= k < |r| ==> r[k] == Trim(Split(applicable.value, ',')[k])
    ensures forall k :: 0 <= k < |r| ==> IsTrimmed(r[k])
  {
    if applicable.None? || applicable.value == "" then [] else TrimAll(Split(applicable.value, ','))
  }

  /** A list stored joined with ", " (the lifecycle table's format) is read back unchanged when
      its items are trimmed, non-empty and comma-free. */
  lemma StoredListRoundTrip(xs: seq<string>)
    requires |xs| >= 1
    requires forall k :: 0 <= k < |xs| ==> xs[k] != "" && IsTrimmed(xs[k]) && ',' !in xs[k]
    ensures RequiredDocuments(Some(Join(xs, ", "))) == xs
  {
    JoinNotEmpty(xs, ", ");
    TrimmedJoinRoundTrip(xs);
  }

  /** The sessions that can still take uploads: neither completed nor frozen. */
  function ActiveSessions(sessions: seq<Session>): (r: seq<Session>)
    ensures forall i :: 0 <= i < |r| ==> r[i] in sessions && r[i].status != "completed" && r[i].status != "frozen"
    ensures forall i :: 0 <= i < |sessions| && sessions[i].status != "completed" && sessions[i].status != "frozen" ==> sessions[i] in r
  {
    Filter(sessions, (s: Session) => s.status != "completed" && s.status != "frozen")
  }

  /** The `filteredSessions` memo: all active sessions, or by default only those sharing the first
      active session's LC number. Nothing renders it: the picker's own `filteredSessions`, which
      ShownCustomerSessions models, shadows it. */
  function SelectableSessions(sessions: seq<Session>, showAll: bool): (r: seq<Session>)
    ensures forall i :: 0 <= i < |r| ==> r[i] in sessions && r[i].status != "completed" && r[i].status != "frozen"
    ensures showAll ==> r == ActiveSessions(sessions)
    ensures !showAll && |ActiveSessions(sessions)| > 0 ==>
      |r| > 0 && r[0] == ActiveSessions(sessions)[0] &&
      forall i :: 0 <= i < |r| ==> r[i].lcNumber == ActiveSessions(sessions)[0].lcNumber
    ensures !showAll && |ActiveSessions(sessions)| > 0 ==>
      forall i ::
        (0 <= i < |sessions| && sessions[i].status != "completed" && sessions[i].status != "frozen" &&
         sessions[i].lcNumber == ActiveSessions(sessions)[0].lcNumber) ==> sessions[i] in r
    ensures |ActiveSessions(sessions)| == 0 ==> r == []
    ensures SubSeq(r, ActiveSessions(sessions))
  {
    var active := ActiveSessions(sessions);
    if showAll then
      assert SubSeq(active, active) by { FilterAll(active, (s: Session) => true); }
      active
    else if |active| == 0 then []
    else Filter(active, (s: Session) => s.lcNumber == active[0].lcNumber)
  }

  /** The current customer's sessions; no stored CIF gives none. */
  function CustomerSessions(sessions: seq<Session>, cif: Option<string>): (r: seq<Session>)
    ensures cif == None || cif == Some("") ==> r == []
    ensures forall i :: 0 <= i < |r| ==> r[i] in sessions && r[i].cifNumber == cif.value
    ensures cif.Some? && cif.value != "" ==>
      forall i :: 0 <= i < |sessions| && sessions[i].cifNumber == cif.value ==> sessions[i] in r
  {
    if cif.None? || cif.value == "" then [] else Filter(sessions, (s: Session) => s.cifNumber == cif.value)
  }

  /** The customer list shows every session when expanded, otherwise only the latest one. */
  function ShownCustomerSessions(customer: seq<Session>, showAll: bool): (r: seq<Session>)
    ensures showAll ==> r == customer
    ensures !showAll ==> |r| == (if |customer| > 0 then 1 else 0)
    ensures !showAll && |customer| > 0 ==> r[0] == customer[|customer| - 1]
    ensures |customer| > 0 ==> r != []
  {
    if showAll then customer else if |customer| > 0 then [customer[|customer| - 1]] else []
  }

  /** The picker that is rendered lists the customer's sessions whatever their status: a completed
      session of the current customer is shown, although the unused memo would drop it. */
  lemma ShownPickerKeepsCompleted()
    ensures var done := Session("s1", None, "LC1", "C1", "L", "completed", "");
      ShownCustomerSessions(CustomerSessions([done], Some("C1")), false) == [done] &&
      SelectableSessions([done], false) == [] && SelectableSessions([done], true) == []
  {
    var done := Session("s1", None, "LC1", "C1", "L", "completed", "");
    assert CustomerSessions([done], Some("C1"))[0] == done;
  }

  // ----------------------------------------------------------------------------------------------
  // The screen state
  // ----------------------------------------------------------------------------------------------

  class UploadScreen {
    var selectedSessionId: string
    /** Written by the handlers below but read by nothing on the screen: the create card is always
        shown. */
    var showCreateSession: bool
    var showAllSessions: bool
    var form: SessionForm
    var mode: Mode
    var mainDocument: Option<string>
    var subDocuments: seq<string>
    var mainCopyDoc: CopyDoc
    var subCopyDocs: seq<CopyDoc>
    /** Every request sent, in order. */
    ghost var sent: seq<Request>

    constructor ()
      ensures selectedSessionId == "" && !showCreateSession && !showAllSessions && form == EmptyForm && mode == FileMode
      ensures mainDocument == None && subDocuments == [] && mainCopyDoc == CopyDoc("", "") && subCopyDocs == []
      ensures sent == []
    {
      selectedSessionId := "";
      showCreateSession := false;
      showAllSessions := false;
      form := EmptyForm;
      mode := FileMode;
      mainDocument := None;
      subDocuments := [];
      mainCopyDoc := CopyDoc("", "");
      subCopyDocs := [];
      sent := [];
    }

    // The input handlers. Each changes only the fields its frame names; the `sent` log and every
    // other field are left as they were.

    /** The session cards: a click selects the session. The `!isUploading` guard only matters
        while an upload is in flight, and an upload here runs to its end within one call. */
    method SelectSession(id: string)
      modifies this`selectedSessionId
      ensures selectedSessionId == id
    {
      selectedSessionId := id;
    }

    /** "View All My Sessions" / "View Latest Session" flips the customer list's expansion. */
    method ToggleShowAllSessions()
      modifies this`showAllSessions
      ensures showAllSessions == !old(showAllSessions)
    {
      showAllSessions := !showAllSessions;
    }

    /** "Create First Session" sets the show-create flag, which nothing reads. The button sits in the
        branch for an empty picker, which is never taken: the picker shows at least one session
        whenever it is rendered (ShownCustomerSessions). */
    method OpenCreateForm()
      modifies this`showCreateSession
      ensures showCreateSession
    {
      showCreateSession := true;
    }

    /** Cancel clears the show-create flag, which nothing reads, so the create card stays on
        screen; what was typed is kept. */
    method CancelCreateForm()
      modifies this`showCreateSession
      ensures !showCreateSession
    {
      showCreateSession := false;
    }

    method SetCifNumber(v: string)
      modifies this`form
      ensures form == old(form).(cifNumber := v)
    {
      form := form.(cifNumber := v);
    }

    /** The customer id input keeps only the digits typed, in order. */
    method SetCustomerId(v: string)
      modifies this`form
      ensures form == old(form).(customerId := Filter(v, IsDigit))
      ensures IsDigits(form.customerId) && SubSeq(form.customerId, v)
      ensures forall i :: 0 <= i < |v| && IsDigit(v[i]) ==> v[i] in form.customerId
    {
      form := form.(customerId := Filter(v, IsDigit));
    }

    method SetLcNumber(v: string)
      modifies this`form
      ensures form == old(form).(lcNumber := v)
    {
      form := form.(lcNumber := v);
    }

    /** A new instrument clears the chosen lifecycle, which belongs to the old instrument. */
    method SetInstrument(v: string)
      modifies this`form
      ensures form == old(form).(instrument := v, lifecycle := "")
    {
      form := form.(instrument := v, lifecycle := "");
    }

    method SetAccountName(v: string)
      modifies this`form
      ensures form == old(form).(accountName := v)
    {
      form := form.(accountName := v);
    }

    method SetCustomerName(v: string)
      modifies this`form
      ensures form == old(form).(customerName := v)
    {
      form := form.(customerName := v);
    }

    method SetCustomerType(v: string)
      modifies this`form
      ensures form == old(form).(customerType := v)
    {
      form := form.(customerType := v);
    }

    method SetLifecycle(v: string)
      modifies this`form
      ensures form == old(form).(lifecycle := v)
    {
      form := form.(lifecycle := v);
    }

    /** The two radio buttons choose the upload mode; the documents of the other mode are kept. */
    method SetMode(m: Mode)
      modifies this`mode
      ensures mode == m
    {
      mode := m;
    }

    /** The main-file input: the first file chosen, or none. */
    method SetMainDocument(file: Option<string>)
      modifies this`mainDocument
      ensures mainDocument == file
    {
      mainDocument := file;
    }

    /** The supporting-files input replaces the whole list with the files chosen, in order. */
    method SetSubDocuments(files: seq<string>)
      modifies this`subDocuments
      ensures subDocuments == files
    {
      subDocuments := files;
    }

    method SetMainCopyName(name: string)
      modifies this`mainCopyDoc
      ensures mainCopyDoc == old(mainCopyDoc).(name := name)
    {
      mainCopyDoc := mainCopyDoc.(name := name);
    }

    method SetMainCopyContent(content: string)
      modifies this`mainCopyDoc
      ensures mainCopyDoc == old(mainCopyDoc).(content := content)
    {
      mainCopyDoc := mainCopyDoc.(content := content);
    }

    /** "+ Add Sub Document" appends an empty pasted document. */
    method AddSubCopyDoc()
      modifies this`subCopyDocs
      ensures subCopyDocs == old(subCopyDocs) + [CopyDoc("", "")]
      ensures |subCopyDocs| == |old(subCopyDocs)| + 1
    {
      subCopyDocs := subCopyDocs + [CopyDoc("", "")];
    }

    /** Remove drops the pasted document at that index and keeps the others in order; an index
        past the end removes nothing, as the filter does. */
    method RemoveSubCopyDoc(index: nat)
      modifies this`subCopyDocs
      ensures index < |old(subCopyDocs)| ==> subCopyDocs == old(subCopyDocs)[..index] + old(subCopyDocs)[index + 1..]
      ensures index >= |old(subCopyDocs)| ==> subCopyDocs == old(subCopyDocs)
    {
      if index < |subCopyDocs| {
        subCopyDocs := subCopyDocs[..index] + subCopyDocs[index + 1..];
      }
    }

    /** Typing a supporting document's name: only that entry's name changes. */
    method SetSubCopyName(index: nat, name: string)
      requires index < |subCopyDocs|
      modifies this`subCopyDocs
      ensures subCopyDocs == old(subCopyDocs)[index := old(subCopyDocs)[index].(name := name)]
    {
      subCopyDocs := subCopyDocs[index := subCopyDocs[index].(name := name)];
    }

    /** Typing a supporting document's text: only that entry's content changes. */
    method SetSubCopyContent(index: nat, content: string)
      requires index < |subCopyDocs|
      modifies this`subCopyDocs
      ensures subCopyDocs == old(subCopyDocs)[index := old(subCopyDocs)[index].(content := content)]
    {
      subCopyDocs := subCopyDocs[index := subCopyDocs[index].(content := content)];
    }

    /** The three refusals of uploadSelectedDocuments: no session, no file, no complete pasted document. */
    predicate UploadAllowed()
      reads this
    {
      selectedSessionId != "" &&
      (mode == FileMode ==> mainDocument.Some? || |subDocuments| > 0) &&
      (mode == CopyMode ==> IsComplete(mainCopyDoc) || exists k :: 0 <= k < |subCopyDocs| && IsComplete(subCopyDocs[k]))
    }

    /** The requests an upload sends when every one succeeds. */
    function Planned(): seq<Request>
      reads this
      requires selectedSessionId != ""
    {
      if mode == FileMode then FileRequests(selectedSessionId, mainDocument, subDocuments)
      else CopyRequests(selectedSessionId, mainCopyDoc, subCopyDocs)
    }

    /** With a session selected, an upload is refused exactly when it would send nothing. */
    lemma AllowedIffSomethingPlanned()
      requires selectedSessionId != ""
      ensures UploadAllowed() <==> |Planned()| > 0
    {
      SomeCompleteCounted(subCopyDocs);
    }

    /** handleCreateSession: with the required fields present, the session is posted and then
        the customer; the form is reset only when both succeed. */
    method HandleCreateSession(newSessionId: Option<string>, customerSaved: bool) returns (created: bool)
      modifies this
      ensures var request := CreateRequest(old(form));
        (request.None? ==> !created && sent == old(sent)) &&
        (request.Some? ==>
          sent == old(sent) + [CreateSession(request.value)] +
                  (if newSessionId.Some? then [SaveCustomer(newSessionId.value, request.value)] else [])) &&
        (created <==> request.Some? && newSessionId.Some? && customerSaved)
      ensures created ==> selectedSessionId == newSessionId.value && !showCreateSession && form == EmptyForm
      ensures !created ==> selectedSessionId == old(selectedSessionId) && showCreateSession == old(showCreateSession) && form == old(form)
      ensures mode == old(mode) && mainDocument == old(mainDocument) && subDocuments == old(subDocuments)
      ensures mainCopyDoc == old(mainCopyDoc) && subCopyDocs == old(subCopyDocs) && showAllSessions == old(showAllSessions)
    {
      created := false;
      var request := CreateRequest(form);
      if request.None? {
        return;
      }
      PostSession(request.value, newSessionId);
      if newSessionId.None? || !customerSaved {
        return;
      }
      OpenCreatedSession(newSessionId.value);
      created := true;
    }

    /** The session is posted, then the customer under the id the server returned, if any. */
    method PostSession(payload: SessionPayload, newSessionId: Option<string>)
      modifies this`sent
      ensures sent == old(sent) + [CreateSession(payload)] + (if newSessionId.Some? then [SaveCustomer(newSessionId.value, payload)] else [])
    {
      if newSessionId.None? {
        sent := sent + [CreateSession(payload)];
      } else {
        sent := sent + ([CreateSession(payload)] + [SaveCustomer(newSessionId.value, payload)]);
        ConcatAssoc(old(sent), [CreateSession(payload)], [SaveCustomer(newSessionId.value, payload)]);
      }
    }

    /** The new session becomes the selected one, the form is emptied and the unread show-create
        flag is cleared. */
    method OpenCreatedSession(id: string)
      modifies this`selectedSessionId, this`showCreateSession, this`form
      ensures selectedSessionId == id && !showCreateSession && form == EmptyForm
    {
      selectedSessionId := id;
      showCreateSession := false;
      form := EmptyForm;
    }

    /** The requests of one upload go out in order; the first one that throws ends the run. */
    method SendPlanned(planned: seq<Request>, replies: seq<bool>) returns (ok: bool)
      modifies this`sent
      ensures sent == old(sent) + planned[..SentCount(replies, |planned|)]
      ensures ok <==> FirstFailure(replies, |planned|).None?
    {
      var i := 0;
      while i < |planned|
        invariant 0 <= i <= |planned|
        invariant sent == old(sent) + planned[..i]
        invariant forall j :: 0 <= j < i ==> Succeeds(replies, j)
      {
        TakeNext(planned, i);
        ConcatAssoc(old(sent), planned[..i], [planned[i]]);
        sent := sent + [planned[i]];
        if !Succeeds(replies, i) {
          FirstFailureIs(replies, |planned|, i);
          return false;
        }
        i := i + 1;
      }
      assert planned[..i] == planned;
      return true;
    }

    /** uploadSelectedDocuments: refused uploads send nothing; otherwise the planned requests go
        out one at a time until one throws, and the document state is cleared only when all succeed. */
    method UploadSelectedDocuments(replies: seq<bool>) returns (ok: bool)
      modifies this
      ensures !old(UploadAllowed()) ==> !ok && sent == old(sent)
      ensures old(UploadAllowed()) ==>
        var planned := old(Planned());
        sent == old(sent) + planned[..SentCount(replies, |planned|)] &&
        (ok <==> FirstFailure(replies, |planned|).None?)
      ensures ok ==> mainDocument == None && subDocuments == [] && mainCopyDoc == CopyDoc("", "") && subCopyDocs == []
      ensures !ok ==> mainDocument == old(mainDocument) && subDocuments == old(subDocuments) &&
                      mainCopyDoc == old(mainCopyDoc) && subCopyDocs == old(subCopyDocs)
      ensures selectedSessionId == old(selectedSessionId) && mode == old(mode) && form == old(form)
      ensures showCreateSession == old(showCreateSession) && showAllSessions == old(showAllSessions)
    {
      ok := false;
      if !UploadAllowed() {
        return;
      }
      var planned := Planned();
      var sentAll := SendPlanned(planned, replies);
      if !sentAll {
        return;
      }
      ClearDocuments();
      ok := true;
    }

    /** The reset after a successful upload: no file chosen and no pasted document. */
    method ClearDocuments()
      modifies this`mainDocument, this`subDocuments, this`mainCopyDoc, this`subCopyDocs
      ensures mainDocument == None && subDocuments == [] && mainCopyDoc == CopyDoc("", "") && subCopyDocs == []
    {
      mainDocument := None;
      subDocuments := [];
      mainCopyDoc := CopyDoc("", "");
      subCopyDocs := [];
    }
  }

  /** The first failure is unique. */
  lemma FirstFailureIs(replies: seq<bool>, n: nat, i: nat)
    requires i < n && !Succeeds(replies, i)
    requires forall j :: 0 <= j < i ==> Succeeds(replies, j)
    ensures FirstFailure(replies, n) == Some(i)
  {
  }

  /** No request after the first failing one is ever sent. */
  lemma NothingAfterFailure(replies: seq<bool>, n: nat, i: nat)
    requires i < n && !Succeeds(replies, i)
    ensures SentCount(replies, n) <= i + 1
  {
  }
}

/** The session list screen: the search and status filter, the delete action and the snapshot
    taken when a session is opened. */
module Sessions {
  import opened Wrappers
  import opened Text
  import opened Lists
  import opened SessionRecord

  /** The row filter: the search term occurs in the LC number, the CIF number or the lifecycle,
      ignoring case, and the status filter is 'all' or the session's status. */
  predicate Shown(s: Session, term: string, statusFilter: string) {
    (ContainsIgnoringCase(s.lcNumber, term) || ContainsIgnoringCase(s.cifNumber, term) ||
     ContainsIgnoringCase(s.lifecycle, term)) &&
    (statusFilter == "all" || s.status == statusFilter)
  }

  /** filteredSessions: the shown sessions, in the store's order. */
  function FilteredSessions(sessions: seq<Session>, term: string, statusFilter: string): (r: seq<Session>)
    ensures forall i :: 0 <= i < |r| ==> r[i] in sessions && Shown(r[i], term, statusFilter)
    ensures forall i :: 0 <= i < |sessions| && Shown(sessions[i], term, statusFilter) ==> sessions[i] in r
    ensures SubSeq(r, sessions)
  {
    Filter(sessions, (s: Session) => Shown(s, term, statusFilter))
  }

  /** With no search term and the 'all' filter every session is listed, in order. */
  lemma EmptySearchShowsAll(sessions: seq<Session>)
    ensures FilteredSessions(sessions, "", "all") == sessions
  {
    forall s | s in sessions ensures Shown(s, "", "all") {
      ContainsEmptyIgnoringCase(s.lcNumber);
    }
    FilterAll(sessions, (s: Session) => Shown(s, "", "all"));
  }

  /** The case of the search term does not matter. */
  lemma SearchIgnoresCase(s: Session, term: string, statusFilter: string)
    ensures Shown(s, ToUpper(term), statusFilter) == Shown(s, term, statusFilter)
    ensures Shown(s, ToLower(term), statusFilter) == Shown(s, term, statusFilter)
  {
    LowerOfToUpper(term);
    ToLowerIdempotent(term);
  }

  /** The actions a row offers. */
  datatype RowAction = View | Delete

  /** canDeleteSession, and the row's buttons: Delete only when it holds. */
  predicate CanDeleteSession(s: Session) {
    s.status != "completed"
  }

  function RowActions(s: Session): (r: set<RowAction>)
    ensures View in r
    ensures Delete in r <==> s.status != "completed"
  {
    if CanDeleteSession(s) then {View, Delete} else {View}
  }

  const DocumentsEndpoint: string := "http://localhost:3000/api/documents/"

  /** The DELETE request of handleDeleteSession. The id comes from the stored 'documentId',
      whatever row was clicked (the contract does not mention `clicked`); a missing stored
      value is interpolated as "null". */
  function DeleteUrl(clicked: string, storedDocumentId: Option<string>): (r: string)
    ensures storedDocumentId.Some? ==> r == DocumentsEndpoint + storedDocumentId.value
    ensures storedDocumentId.None? ==> r == DocumentsEndpoint + "null"
  {
    DocumentsEndpoint + (if storedDocumentId.Some? then storedDocumentId.value else "null")
  }

  /** JavaScript's `sessionID || id`: an absent or empty sessionID falls back to the id. */
  function ViewId(s: Session): (r: string)
    ensures s.sessionID.Some? && s.sessionID.value != "" ==> r == s.sessionID.value
    ensures s.sessionID.None? || s.sessionID == Some("") ==> r == s.id
  {
    if s.sessionID.Some? && s.sessionID.value != "" then s.sessionID.value else s.id
  }

  /** The 'currentSession' snapshot stored when a session is opened. */
  datatype Snapshot = Snapshot(cifNumber: string, lcNumber: string, lifecycle: string,
                               sessionID: string, status: string, createdAt: string)

  const OcrFactoryRoute: string := "/tf_genie/discrepancy/ocr-factory/"

  /** handleViewSession: the stored snapshot and the route navigated to. */
  function ViewSession(s: Session): (r: (Snapshot, string))
    ensures r.0.sessionID == ViewId(s)
    ensures r.1 == OcrFactoryRoute + r.0.sessionID
    ensures r.0.cifNumber == s.cifNumber && r.0.lcNumber == s.lcNumber &&
            r.0.lifecycle == s.lifecycle && r.0.status == s.status && r.0.createdAt == s.createdAt
  {
    var id := ViewId(s);
    (Snapshot(s.cifNumber, s.lcNumber, s.lifecycle, id, s.status, s.createdAt), OcrFactoryRoute + id)
  }
}

# Trade-finance document review: a Dafny model

This project models the decision logic of a trade-finance document-review application. A
reviewer opens a session for a letter of credit, uploads the main document and its supporting
documents, and the back end turns each document into text with OCR. Every page is classified
against the known forms of the lifecycle. The result is grouped into a versioned final-OCR
record that is edited and approved, and an approved record becomes a document summary. Around
this sit the administration screens (roles and users), a vessel-tracking lookup, and three
standalone scripts. The scripts split a PDF page by page, screen the goods description of a
documentary credit against a control list, and catalogue grouped forms against the master
documents.

One Dafny module follows each source file:

| module | source |
|---|---|
| `SessionDetail` | the review screen: key/value parser, name normalisation, tabs, summary fetch, page edit, finalise lock |
| `Upload` | session creation, upload validation, the ordered submissions |
| `SessionRecord`, `Sessions`, `Dashboard` | the session list, its filter and the dashboard counts |
| `FinalOcr`, `Lifecycle`, `DocumentSummary` | the back-end records: versioned final OCR, lifecycle document lists, summaries |
| `Classification`, `DocumentProcessor`, `DocId` | page classification, the processing pipeline's status and audit trail, document ids |
| `LegacyBackend` | the older flattened back end: case-id counters, the older classifier, product detection |
| `RoleManagement`, `UserManagement` | the administration screens |
| `VesselTracking` | the AIS navigational-status text and the MMSI lookup |
| `Screening`, `SplitOcr`, `OcrAlone`, `Catalog` | the standalone OCR, screening and cataloguing scripts |
| `Wrappers`, `Text`, `Lists` | `Option`/`Result`, ASCII text operations, sequence helpers |

Screen state that a component updates through handlers is a class whose methods carry
`modifies` clauses. The same holds for the stored records of the back end. Loops in the source
are `while` loops proved against recursive or comprehension specification functions. Calls to
the database, the OCR engines, the language model, the network and the browser are parameters
of the operations that use their results.

## Model

| member | source | states |
|---|---|---|
| SessionDetail.DropCr | src/components/Trade_Finance/OCR/SessionDetailNew.tsx:409 | at most one trailing carriage return is removed, the `\r?` of the line-split pattern |
| SessionDetail.Lines | src/components/Trade_Finance/OCR/SessionDetailNew.tsx:409 | splitting a text always gives at least one line, even for the empty text |
| SessionDetail.LinesCons | src/components/Trade_Finance/OCR/SessionDetailNew.tsx:409 | a newline ends a line and a carriage return right before it is not part of the line |
| SessionDetail.LinesSingle | src/components/Trade_Finance/OCR/SessionDetailNew.tsx:409 | a text without a newline is a single line |
| SessionDetail.KeyAndValue | src/components/Trade_Finance/OCR/SessionDetailNew.tsx:416-420 | for a colon line the key is the trimmed text before the first ':' and the value is everything after it, later colons included, trimmed |
| SessionDetail.Emit | src/components/Trade_Finance/OCR/SessionDetailNew.tsx:416-424 | a pending pair is pushed exactly when its key or its untrimmed value is non-empty, and the pushed value is trimmed |
| SessionDetail.PairsFrom | src/components/Trade_Finance/OCR/SessionDetailNew.tsx:414-424 | the parser emits at most one pair more than there are colon lines, and every emitted value is trimmed |
| SessionDetail.Unfold | src/components/Trade_Finance/OCR/SessionDetailNew.tsx:415-422 | one step: a colon line pushes the pending pair and opens a new one; any other line appends a space and its trimmed text to the pending value |
| SessionDetail.KeysFromColonLines | src/components/Trade_Finance/OCR/SessionDetailNew.tsx:416-420 | every key shown is the pending key or the key of one of the colon lines |
| SessionDetail.ParseKeyValues | src/components/Trade_Finance/OCR/SessionDetailNew.tsx:409-424 | the forEach loop over the lines produces exactly the pairs of the specification, and no pairs for a page without text |
| SessionDetail.ContinuationLines | src/components/Trade_Finance/OCR/SessionDetailNew.tsx:421-424 | lines without a colon only extend the pending value, each after one separating space, and yield at most one pair at the end |
| SessionDetail.KeyedRowEmitted | src/components/Trade_Finance/OCR/SessionDetailNew.tsx:416-424 | a colon line with a non-empty key always opens a row carrying that key |
| SessionDetail.OneColonLine | src/components/Trade_Finance/OCR/SessionDetailNew.tsx:409-424 | a single line "key: value" gives exactly one row with the trimmed key and value |
| SessionDetail.EmptyTextRow | src/components/Trade_Finance/OCR/SessionDetailNew.tsx:409-424 | an empty text still gives one keyless, empty row, since its lone empty line adds a space to the pending value |
| SessionDetail.CapitalizeWords | src/components/Trade_Finance/OCR/SessionDetailNew.tsx:239 | every character matched by `\b\w` is upper-cased and every other character is unchanged |
| SessionDetail.TitleWords | src/components/Trade_Finance/OCR/SessionDetailNew.tsx:236-239 | the result holds no underscore, equals ignoring case the lower-cased text with '_' turned into spaces, has every word start not lower-case and every other letter not upper-case |
| SessionDetail.TitleWordsIdempotent | src/components/Trade_Finance/OCR/SessionDetailNew.tsx:236-239 | lower-casing, replacing underscores and capitalising words a second time changes nothing |
| SessionDetail.NormalizeDocName | src/components/Trade_Finance/OCR/SessionDetailNew.tsx:235-240 | ignoring case, the result is the name with both kinds of quote removed and '_' turned into spaces; word starts are upper-case, all other letters lower-case, and it is no longer than the name |
| SessionDetail.NormalizeDocNameIdempotent | src/components/Trade_Finance/OCR/SessionDetailNew.tsx:235-240 | normalizing a normalized document name changes nothing |
| SessionDetail.NormalizeText | src/components/Trade_Finance/OCR/SessionDetailNew.tsx:225-233 | normalizeText gives '-' for a missing or empty text; otherwise, up to case, the result is the text with double quotes removed, lower-cased and with '_' turned into ' ', and each word starts with an upper-case letter and continues in lower case; on texts without a single quote it agrees with normalizeDocName |
| SessionDetail.PagesOf | src/components/Trade_Finance/OCR/SessionDetailNew.tsx:543-545 | a page list is used as it is and a single page becomes a one-element list |
| SessionDetail.KeepTabs | src/components/Trade_Finance/OCR/SessionDetailNew.tsx:277-281 | the filter keeps every tab but Summary, and keeps Summary exactly when there is summary data |
| SessionDetail.VisibleTabs | src/components/Trade_Finance/OCR/SessionDetailNew.tsx:277-281 | the Summary tab is listed iff the summary mapping has at least one key; without it the tabs are exactly Draft, OCR, Classification and Final OCR in that order, and with it all five |
| SessionDetail.SummaryState | src/components/Trade_Finance/OCR/SessionDetailNew.tsx:82-112 | fetchSummary's outcome: the finalised flag holds iff the first row parses to a non-empty mapping; on success the mapping kept is the object's groups, or the array under "default"; every failure leaves {} and false |
| SessionDetail.ArraySummaryIsDefault | src/components/Trade_Finance/OCR/SessionDetailNew.tsx:89-97 | a single row is wrapped into an array, and a top-level JSON array is shown under the one document type "default" |
| SessionDetail.FirstMatch | src/components/Trade_Finance/OCR/SessionDetailNew.tsx:606-608 | Array.find: the first page with that page_no, and none exactly when no page has it |
| SessionDetail.SetPageText | src/components/Trade_Finance/OCR/SessionDetailNew.tsx:606-611 | Save succeeds iff the type holds a page list with a page of that page_no; then only that first page's text changes, every other type and page is unchanged and no key is added |
| SessionDetail.ReviewPanel.constructor | src/components/Trade_Finance/OCR/SessionDetailNew.tsx:18-42 | the panel opens on the Draft tab, not finalised, with no summary, no row in edit mode and nothing sent |
| SessionDetail.ReviewPanel.FetchSummary | src/components/Trade_Finance/OCR/SessionDetailNew.tsx:82-112 | both the summary pages and the finalised flag are set from the reply as SummaryState says, and nothing else changes |
| SessionDetail.ReviewPanel.Finalize | src/components/Trade_Finance/OCR/SessionDetailNew.tsx:121-141 | callable only while the Finalize button is offered; the approval request is logged, a successful one switches to the Summary tab with the lock re-derived from the re-fetched summary, and a failed one changes neither tab nor lock nor summary |
| SessionDetail.ReviewPanel.TabDataLoaded | src/components/Trade_Finance/OCR/SessionDetailNew.tsx:191-197 | a first final-OCR row with status APPROVED sets the lock and summary from the summary reply; any other first row leaves them unchanged |
| SessionDetail.ReviewPanel.Edit | src/components/Trade_Finance/OCR/SessionDetailNew.tsx:589-597 | callable only while the row's Edit button is offered; the click puts the row in edit mode with the page's current text and changes nothing else |
| SessionDetail.ReviewPanel.Type | src/components/Trade_Finance/OCR/SessionDetailNew.tsx:623-633 | callable only while the row's text is editable; typing replaces only that row's edited text |
| SessionDetail.ReviewPanel.Save | src/components/Trade_Finance/OCR/SessionDetailNew.tsx:602-614 | callable only while the row's Save button is offered; the edited text goes into the matching page as SetPageText says, the whole mapping is sent and the row leaves edit mode, and when no page matches nothing is sent |
| SessionDetail.FinalizedIsReadOnly | src/components/Trade_Finance/OCR/SessionDetailNew.tsx:529-623 | while the panel is finalised no Finalize, Edit or Save button is offered and no text is editable |
| SessionDetail.Handle | src/components/Trade_Finance/OCR/SessionDetailNew.tsx:529-633 | a click or keystroke on the review panel runs its handler only while that control is offered; while the panel is finalised nothing changes, not the saves, the approvals, the edit mode nor the edited texts |
| SessionDetail.ApprovalWithoutSummaryUnlocks | src/components/Trade_Finance/OCR/SessionDetailNew.tsx:82-131 | the lock set after approval is overwritten by the summary re-fetch, so a failed, empty or empty-mapping summary reply leaves the panel unlocked |
| Upload.TrimOrNull | src/components/Trade_Finance/OCR/Upload.tsx:185-191 | `s.trim() \|\| null`: null exactly for a blank input, otherwise the trimmed, non-empty text |
| Upload.CreateRequest | src/components/Trade_Finance/OCR/Upload.tsx:183-203 | handleCreateSession sends a payload iff none of the trimmed CIF number, customer name, customer type, LC number and lifecycle is empty; the required fields are sent trimmed, and each optional one as its trimmed value, or null when blank |
| Upload.CreateChecksIncomparable | src/components/Trade_Finance/OCR/Upload.tsx:765-774 | the Create button's untrimmed eight-field check and the handler's trimmed five-field check do not imply each other: whitespace-only fields pass the button, and blank optional fields pass the handler |
| Upload.UploadDocumentNew | src/components/Trade_Finance/OCR/Upload.tsx:409-431 | uploadDocumentNew throws exactly on an empty session id and otherwise posts the one file with product "LC" |
| Upload.FileRequests | src/components/Trade_Finance/OCR/Upload.tsx:342-353 | file mode sends the main file first, then every supporting file in list order, all with product "LC" |
| Upload.SubTextRequests | src/components/Trade_Finance/OCR/Upload.tsx:373-386 | copy mode sends, for the complete supporting pasted documents in list order, one request each with that document's trimmed name and content and product "trade" |
| Upload.CopyRequests | src/components/Trade_Finance/OCR/Upload.tsx:356-386 | copy mode sends the main pasted document's request first when it is complete, followed by exactly the supporting requests of SubTextRequests; incomplete documents are skipped |
| Upload.SomeCompleteCounted | src/components/Trade_Finance/OCR/Upload.tsx:326-333 | the copy-mode `some` check holds exactly when at least one supporting pasted document is sent |
| Upload.FirstFailure | src/components/Trade_Finance/OCR/Upload.tsx:340-401 | the first request that throws, with every earlier one succeeding; none when all succeed |
| Upload.SentCount | src/components/Trade_Finance/OCR/Upload.tsx:340-401 | no more requests go out than are planned |
| Upload.FirstFailureIs | src/components/Trade_Finance/OCR/Upload.tsx:340-401 | the first failing request is unique |
| Upload.NothingAfterFailure | src/components/Trade_Finance/OCR/Upload.tsx:340-401 | no request after the first one that throws is ever sent |
| Upload.RequiredDocuments | src/components/Trade_Finance/OCR/Upload.tsx:154-156 | item k is the k-th piece of Applicable_Documents split on ',' trimmed, one item per piece; a missing or empty value gives [] |
| Upload.StoredListRoundTrip | src/components/Trade_Finance/OCR/Upload.tsx:154-156 | a list of trimmed, non-empty, comma-free names stored joined with ", " is read back unchanged |
| Upload.ActiveSessions | src/components/Trade_Finance/OCR/Upload.tsx:128 | the active sessions are exactly those neither completed nor frozen |
| Upload.SelectableSessions | src/components/Trade_Finance/OCR/Upload.tsx:129-136 | the `filteredSessions` memo, which nothing renders because the picker's own list shadows it, holds all active sessions, or by default the active sessions sharing the first active session's LC number in order, every one of them and nothing else; none when no session is active |
| Upload.ShownPickerKeepsCompleted | src/components/Trade_Finance/OCR/Upload.tsx:815-822 | the rendered picker shows a completed session of the current customer, which the unused memo would drop |
| Upload.CustomerSessions | src/components/Trade_Finance/OCR/Upload.tsx:436-442 | the current customer's sessions are exactly those with the stored CIF number; no stored CIF gives none |
| Upload.ShownCustomerSessions | src/components/Trade_Finance/OCR/Upload.tsx:815-822 | the customer list shows every session when expanded, otherwise only the latest one, and is never empty for a customer with sessions |
| Upload.UploadScreen.constructor | src/components/Trade_Finance/OCR/Upload.tsx:55-108 | the screen opens with no session selected, the show-create flag (which nothing reads) clear, the full customer list collapsed, an empty form, file mode, no document and nothing sent |
| Upload.UploadScreen.SelectSession | src/components/Trade_Finance/OCR/Upload.tsx:850 | a session card click selects that session and changes nothing else |
| Upload.UploadScreen.ToggleShowAllSessions | src/components/Trade_Finance/OCR/Upload.tsx:805 | the toggle flips between the customer's latest session and all of them, and changes nothing else |
| Upload.UploadScreen.OpenCreateForm | src/components/Trade_Finance/OCR/Upload.tsx:833 | "Create First Session" sets the show-create flag, which nothing reads, and changes nothing else; the button itself is never rendered |
| Upload.UploadScreen.CancelCreateForm | src/components/Trade_Finance/OCR/Upload.tsx:758 | Cancel clears the show-create flag, which nothing reads, and keeps what was typed; the create card stays on screen |
| Upload.UploadScreen.SetCifNumber | src/components/Trade_Finance/OCR/Upload.tsx:499-501 | the CIF input changes only the form's CIF number |
| Upload.UploadScreen.SetCustomerId | src/components/Trade_Finance/OCR/Upload.tsx:529-534 | the customer id input keeps exactly the digits typed, in order, and changes nothing else |
| Upload.UploadScreen.SetLcNumber | src/components/Trade_Finance/OCR/Upload.tsx:570-572 | the LC number input changes only the form's LC number |
| Upload.UploadScreen.SetInstrument | src/components/Trade_Finance/OCR/Upload.tsx:595-600 | a new instrument is stored and the chosen lifecycle is cleared; nothing else changes |
| Upload.UploadScreen.SetAccountName | src/components/Trade_Finance/OCR/Upload.tsx:642-644 | the account name input changes only that field |
| Upload.UploadScreen.SetCustomerName | src/components/Trade_Finance/OCR/Upload.tsx:667-669 | the customer name input changes only that field |
| Upload.UploadScreen.SetCustomerType | src/components/Trade_Finance/OCR/Upload.tsx:692-694 | the customer type input changes only that field |
| Upload.UploadScreen.SetLifecycle | src/components/Trade_Finance/OCR/Upload.tsx:719-721 | the lifecycle select changes only that field |
| Upload.UploadScreen.SetMode | src/components/Trade_Finance/OCR/Upload.tsx:898-902 | the radio buttons set the upload mode and keep the documents of both modes |
| Upload.UploadScreen.SetMainDocument | src/components/Trade_Finance/OCR/Upload.tsx:923 | the main-file input sets the main document to the first file chosen, or none |
| Upload.UploadScreen.SetSubDocuments | src/components/Trade_Finance/OCR/Upload.tsx:943 | the supporting-files input replaces the list with the files chosen, in order |
| Upload.UploadScreen.SetMainCopyName | src/components/Trade_Finance/OCR/Upload.tsx:966 | typing the main pasted document's name changes only that name |
| Upload.UploadScreen.SetMainCopyContent | src/components/Trade_Finance/OCR/Upload.tsx:973 | typing the main pasted document's text changes only that text |
| Upload.UploadScreen.AddSubCopyDoc | src/components/Trade_Finance/OCR/Upload.tsx:984 | "+ Add Sub Document" appends one empty pasted document |
| Upload.UploadScreen.RemoveSubCopyDoc | src/components/Trade_Finance/OCR/Upload.tsx:997 | Remove drops the pasted document at that index and keeps the others in order |
| Upload.UploadScreen.SetSubCopyName | src/components/Trade_Finance/OCR/Upload.tsx:1007-1011 | typing a supporting document's name changes only that entry's name |
| Upload.UploadScreen.SetSubCopyContent | src/components/Trade_Finance/OCR/Upload.tsx:1018-1022 | typing a supporting document's text changes only that entry's content |
| Upload.UploadScreen.AllowedIffSomethingPlanned | src/components/Trade_Finance/OCR/Upload.tsx:305-333 | with a session selected, an upload is refused exactly when it would send nothing |
| Upload.UploadScreen.HandleCreateSession | src/components/Trade_Finance/OCR/Upload.tsx:182-256 | with the required fields present the session and then the customer are posted and the new session is selected, the form is emptied and the unread show-create flag is cleared; otherwise nothing is sent and nothing changes |
| Upload.UploadScreen.PostSession | src/components/Trade_Finance/OCR/Upload.tsx:207-234 | the session is posted first, then the customer under the id the server returned |
| Upload.UploadScreen.OpenCreatedSession | src/components/Trade_Finance/OCR/Upload.tsx:239-251 | the created session becomes the selected one, the form is emptied and the unread show-create flag is cleared |
| Upload.UploadScreen.SendPlanned | src/components/Trade_Finance/OCR/Upload.tsx:340-401 | the planned requests go out in order up to and including the first that throws, and the run succeeds iff none throws |
| Upload.UploadScreen.UploadSelectedDocuments | src/components/Trade_Finance/OCR/Upload.tsx:303-406 | a refused upload sends nothing; otherwise the planned requests go out in order until the first failure; the documents are cleared only after full success and left intact on error |
| Upload.UploadScreen.ClearDocuments | src/components/Trade_Finance/OCR/Upload.tsx:391-394 | after success no file is chosen and no pasted document is left |
| FinalOcr.EntriesNamed | app/crud/final_ocr.py:33-39 | the reference definition of one group: the pages of the rows with that name, in row order |
| FinalOcr.GroupedIsByName | app/crud/final_ocr.py:33-39 | a name has a group iff some row carries it, and its group is exactly the pages of its rows in query order |
| FinalOcr.TotalAppend | app/crud/final_ocr.py:34-39 | one more row adds one entry to exactly one group |
| FinalOcr.GroupingKeepsEveryRow | app/crud/final_ocr.py:33-39 | the groups together hold exactly as many entries as there are rows |
| FinalOcr.EmptyTotal | app/crud/final_ocr.py:33 | with no rows, no group holds an entry |
| FinalOcr.GroupNamesHoldAllRows | app/crud/final_ocr.py:33-39 | the groups listed by the names GroupRows returns hold every row exactly once |
| FinalOcr.GroupRows | app/crud/final_ocr.py:33-39 | the setdefault/append loop builds exactly the grouping by name, and lists the group names in order of first appearance, each once |
| FinalOcr.FirstNames | app/crud/final_ocr.py:33-39 | the dictionary's key order: every name that occurs in the rows, each once |
| FinalOcr.FirstNamesInOrder | app/crud/final_ocr.py:33-39 | a name listed before another occurs in a row earlier than every row of the later name |
| FinalOcr.CreateStep | app/crud/final_ocr.py:41-60 | creation (re)writes the record as version 0, DRAFT, with that JSON and whole_text or "", leaves every other record alone and appends one CREATED history row of version 0 with the same JSON |
| FinalOcr.EditStep | app/crud/final_ocr.py:95-116 | an edit of a missing record raises; otherwise the version goes up by one, the JSON and last editor are replaced, the status is kept, and one EDITED row with the new version, JSON and user is appended |
| FinalOcr.ApproveStep | app/crud/final_ocr.py:130-157 | approving a missing record raises RuntimeError; an APPROVED record is left alone with no history; otherwise the status becomes APPROVED and one APPROVED row with the unchanged version and JSON is appended |
| FinalOcr.GetStep | app/crud/final_ocr.py:65-83 | get_final_ocr returns nothing exactly for an unknown document, else its id, JSON, status and version |
| FinalOcr.ApproveIdempotent | app/crud/final_ocr.py:143-144 | approving twice is approving once, whoever approves the second time |
| FinalOcr.HistoryAppendOnly | app/crud/final_ocr.py:55-157 | history is append-only: an edit strictly extends it and an approval never shortens or rewrites it |
| FinalOcr.EditRecordsNewVersion | app/crud/final_ocr.py:104-116 | after an edit the record's version is the version of the newest history row |
| FinalOcr.FinalOcrTables.CreateFinalRecord | app/crud/final_ocr.py:7-62 | create_final_record performs the creation step with the dump of the rows grouped by name, the groups listed in the order their names first appear |
| FinalOcr.FinalOcrTables.GetFinalOcr | app/crud/final_ocr.py:65-83 | get_final_ocr reads the record without changing anything |
| FinalOcr.FinalOcrTables.UpdateFinalOcr | app/crud/final_ocr.py:86-118 | update_final_ocr performs the edit step, and on the exception nothing changed |
| FinalOcr.FinalOcrTables.ApproveFinalOcr | app/crud/final_ocr.py:121-159 | approve_final_ocr performs the approval step, and on RuntimeError nothing changed |
| Lifecycle.ExistingDocs | app/crud/lifecycle.py:44-46 | the add path's reading of the stored list: split on ',', every item trimmed and empty items dropped, so no item is empty, untrimmed or holds a comma; NULL reads as [] |
| Lifecycle.CurrentDocs | app/crud/lifecycle.py:78-81 | the delete path's reading: a NULL or empty value gives [], otherwise every comma-separated piece trimmed, empty pieces kept |
| Lifecycle.ExistingIsNonEmptyCurrent | app/crud/lifecycle.py:44-46 | the two readings differ only in the empty pieces, which add drops and delete keeps |
| Lifecycle.StoredRoundTrip | app/crud/lifecycle.py:44-54 | a list of trimmed, non-empty, comma-free items joined with ", " reads back unchanged by both paths |
| Lifecycle.Merge | app/crud/lifecycle.py:48-50 | the merged list starts with the existing list unchanged |
| Lifecycle.MergeMembers | app/crud/lifecycle.py:48-50 | a document is in the merged list exactly when it was already there or is one of the new documents, trimmed (compared case-sensitively) |
| Lifecycle.AddedLast | app/crud/lifecycle.py:48-50 | one more new document adds its trimmed text to the documents being added |
| Lifecycle.MergeDistinct | app/crud/lifecycle.py:48-50 | a duplicate-free list stays duplicate-free after an add |
| Lifecycle.MergePresent | app/crud/lifecycle.py:48-50 | documents that are all present already change nothing |
| Lifecycle.MergeIdempotent | app/crud/lifecycle.py:48-50 | adding the same documents twice gives the same list as adding them once |
| Lifecycle.AddedListReadsBack | app/crud/lifecycle.py:44-54 | after an add of non-blank, comma-free documents the stored list reads back as the merged list |
| Lifecycle.MergeDocuments | app/crud/lifecycle.py:48-50 | the append loop computes exactly the merge |
| Lifecycle.Remove | app/crud/lifecycle.py:83-86 | delete keeps the other entries in order, drops every entry equal to the trimmed name ignoring case, and keeps every entry that differs |
| Lifecycle.RemoveIdempotent | app/crud/lifecycle.py:83-86 | deleting twice is deleting once |
| Lifecycle.LifecycleTable.constructor | app/crud/lifecycle.py:35-38 | the table holds the given Required_Documents values by ID |
| Lifecycle.LifecycleTable.AddDocumentsToLifecycle | app/crud/lifecycle.py:30-62 | an unknown ID raises ValueError and changes nothing; otherwise the merged list is returned and stored joined with ", " |
| Lifecycle.LifecycleTable.DeleteDocumentFromLifecycle | app/crud/lifecycle.py:65-98 | an unknown ID raises ValueError and changes nothing; otherwise the remaining list is returned and stored joined with ", " |
| DocumentSummary.DetectProduct | app/services/document_summary_service.py:5-27 | detect_product returns the first category whose code set meets the codes, in the order Trade Finance, Insurance, RFO, and "Unknown" exactly when none does |
| DocumentSummary.UpperCaseCodes | app/services/document_summary_service.py:12-19 | every insurance and RFO code contains an upper-case letter |
| DocumentSummary.LowerCaseNamesAreTradeOrUnknown | app/services/document_summary_service.py:12-27 | lower-cased names never meet the upper-case insurance and RFO codes, so the product is always "Trade Finance" or "Unknown" |
| DocumentSummary.LoweredNames | app/services/document_summary_service.py:63-68 | the names taken are exactly the lower-cased classified names other than 'unknown', and none has an upper-case letter |
| DocumentSummary.DocumentListOrderFree | app/services/document_summary_service.py:68-69 | the document list depends only on the set of classified names, not on their order or repetition |
| DocumentSummary.DocumentListSorted | app/services/document_summary_service.py:68-69 | the names joined into the document list are distinct, ascending and lower-case |
| DocumentSummary.NewSummary | app/services/document_summary_service.py:45-96 | a summary is made iff the job metadata exists and an APPROVED final-OCR row exists; it carries the job's case id and file path, the draft's name, the approved JSON, version and approver, the sorted document list of the classified names and the product detected from them, which is "Trade Finance" or "Unknown" |
| DocumentSummary.SummaryStep | app/services/document_summary_service.py:38-96 | an existing summary for the document stops the creation with nothing inserted; otherwise either the error is raised or exactly one new summary is appended |
| DocumentSummary.SummaryStepKeepsUnique | app/services/document_summary_service.py:38-43 | there is never more than one summary per document |
| DocumentSummary.SummaryStepIdempotent | app/services/document_summary_service.py:38-43 | creating the summary a second time changes nothing |
| DocumentSummary.SummaryTable.CreateDocumentSummary | app/services/document_summary_service.py:30-96 | create_document_summary performs the summary step, and on an exception writes nothing |
| Classification.FormCode | app/services/classification_service.py:41 | a form code is stripped and upper-cased, so it holds no lower-case letter |
| Classification.FormKey | app/services/classification_service.py:42 | a form name becomes lower-case with every space turned into '_', keeping its length |
| Classification.FormPairs | app/services/classification_service.py:40-43 | each form row contributes one (code, name key) pair |
| Classification.ValidCodes | app/services/classification_service.py:45-48 | "UNKNOWN" is always a valid code |
| Classification.CodeToNameIsLastRow | app/services/classification_service.py:40-48 | the codes with a name plus "UNKNOWN" are exactly the valid codes, and a code's name is the name key of the last row with that code |
| Classification.LoadDocumentForms | app/services/classification_service.py:29-48 | load_document_forms' loop builds exactly code_to_name (later rows overwriting earlier ones) and the row codes plus "UNKNOWN" |
| Classification.ReadReply | app/services/classification_service.py:82-95 | a raised call, a reply with more than one '\|' or an unparsable confidence gives ("UNKNOWN", 0.0); "CODE\|CONF" gives the parsed confidence and a bare reply the default one; the code is kept when valid and is "UNKNOWN" otherwise |
| Classification.WellFormedReplyRead | app/services/classification_service.py:82-95 | a valid code answered as "CODE\|CONF" with a parsable confidence is read back as that code and confidence |
| Classification.BareReplyRead | app/services/classification_service.py:82-95 | a valid code answered alone is read back with the default confidence |
| Classification.ClassifyWithText | app/services/classification_service.py:100-129 | classify_with_text gives ("UNKNOWN", 0.0) for a missing or empty text without a call, and otherwise reads the reply as ReadReply does with default confidence 0.85 |
| Classification.ClassifyWithVision | app/services/classification_service.py:53-95 | classify_with_vision reads the reply as ReadReply does with default confidence 0.7; its code is always valid or "UNKNOWN" |
| Classification.Fuse | app/services/classification_service.py:158-179 | TEXT+VISION and TEXT give the text code, VISION the vision code, WEIGHTED the higher-confidence code with ties to text, and NONE gives "UNKNOWN" |
| Classification.FuseRules | app/services/classification_service.py:16-18 | which rule fires depends only on the confidences: text at or above 0.85 wins (with TEXT+VISION iff vision agrees at or above 0.75), then vision at or above 0.75, then WEIGHTED if either reaches 0.60, and NONE iff both are below 0.60 |
| Classification.AgreementIsKept | app/services/classification_service.py:161-179 | when the two readings agree the fused code is theirs or "UNKNOWN" |
| Classification.FusedCodeValid | app/services/classification_service.py:158-179 | the fused code of two valid codes is valid |
| Classification.PageRow | app/services/classification_service.py:147-190 | each page's row carries the code Fuse chooses from the text and vision readings, its form name or "unknown", the page's number and text, and is_external exactly when text confidence is below 0.85 and vision confidence reaches 0.75 |
| Classification.PageRows | app/services/classification_service.py:147-190 | one row per fetched OCR page, in the order the query returns the pages, carrying the page's number, text and document id |
| Classification.PageRowsSnoc | app/services/classification_service.py:147-190 | the rows of one more page are the rows so far followed by that page's row |
| Classification.ClassificationTable.ClassifyPages | app/services/classification_service.py:134-190 | classify_pages loads the forms and appends exactly one row per fetched OCR page, in the order the query returns the pages |
| Classification.ClassificationTable.InsertPageRows | app/services/classification_service.py:147-190 | the loop over the fetched OCR pages appends exactly the rows of the pages, in the order the query returns them |
| DocumentProcessor.IsTextFile | app/services/document_processor.py:12-14 | is_text_file holds iff the lower-cased path ends with ".txt" |
| DocumentProcessor.IsTextFileIgnoresCase | app/services/document_processor.py:12-14 | the text-file test ignores the case of the path |
| DocumentProcessor.Plan | app/services/document_processor.py:28-54 | the try block as written makes thirteen calls in a fixed order, the eleventh being the summary call |
| DocumentProcessor.CorrectedPlan | app/services/document_processor.py:28-54 | the intended try block makes the same calls in the same order without the summary call: twelve calls, none of them a summary |
| DocumentProcessor.SuccessfulRun | app/services/document_processor.py:28-54 | a run of the intended pipeline without failure sets the job PROCESSING and then COMPLETED and no other status, writes the six audit actions PROCESSING_STARTED, OCR_STARTED, OCR_COMPLETED, CLASSIFICATION_COMPLETED, FINAL_JSON_CREATED and PROCESSING_COMPLETED in that order and no other, runs draft, OCR, classification and final record in that order, and makes no summary |
| DocumentProcessor.FailedRun | app/services/document_processor.py:56-73 | a failing run of the intended pipeline ends with the error log, the PROCESSING_FAILED audit and the FAILED status carrying the message, in that order; COMPLETED is written only when the closing audit is the call that raises, and FAILED then overwrites it |
| DocumentProcessor.TextFileIsOnePage | app/services/document_processor.py:35-39 | a text file yields exactly one OCR page, numbered 1, with stamp "N/A" and the file's text, and the final record is built from that text |
| DocumentProcessor.AsWrittenFailAt | app/services/document_processor.py:50 | as written, the summary call raises on every run, so the first call to raise is the summary call at the latest |
| DocumentProcessor.AsWrittenNeverCompletes | app/services/document_processor.py:50-52 | as written, no run ever sets the job COMPLETED, whatever the other calls do |
| DocumentProcessor.CorrectedCompletesIffNoFailure | app/services/document_processor.py:24-73 | without the summary call, a run ends COMPLETED exactly when no call raises and FAILED exactly when one does |
| DocumentProcessor.SummaryAfterCreateRaises | app/services/document_summary_service.py:73-81 | right after create_final_record the document's final OCR is a DRAFT, so summarising it by doc_id raises for every document without a summary, with "Document not approved yet" whenever its job is known |
| DocumentProcessor.SummaryAfterApprovalSucceeds | app/api/v1/review_endpoint.py:30-35 | after approve_final_ocr, summarising a document whose job is known succeeds and appends exactly one summary, holding the approved version and naming the approver (the earlier one when the record was already approved) |
| DocumentProcessor.Pipeline.Call | app/services/document_processor.py:28-54 | one call of the try block records its effect unless it is the failing call |
| DocumentProcessor.Pipeline.Fail | app/services/document_processor.py:57-73 | when the calls before the failing one are already recorded, the except block leaves exactly those calls followed by the DOCUMENT_PROCESSOR error log, the PROCESSING_FAILED audit and the FAILED job status, each carrying the message |
| DocumentProcessor.Pipeline.ProcessDocumentTask | app/services/document_processor.py:21-73 | process_document_task without the summary call leaves exactly the calls before the failing one followed by the except block's three records, or all twelve calls; it returns the exception exactly when some call raises |
| DocumentProcessor.Pipeline.StartAndOcr | app/services/document_processor.py:28-41 | the first five calls: start audit, PROCESSING, draft, OCR audit, and OCR or text ingestion, stopping at the failing call |
| DocumentProcessor.Pipeline.ClassifyAndRecord | app/services/document_processor.py:42-49 | calls five to nine: OCR audit, classification and its audit, final record and its audit, stopping at the failing call |
| DocumentProcessor.Pipeline.Complete | app/services/document_processor.py:52-54 | calls ten and eleven: COMPLETED and the closing audit, stopping at the failing call |
| DocId.NextSeq | app/services/doc_id_service.py:18 | the sequence number is the job count plus one, a NULL count counting as zero, and is at least 1 |
| DocId.GenerateDocId | app/services/doc_id_service.py:20 | the id is "DOC-" + case id + "-" followed by the sequence number in decimal, zero-padded to exactly three digits when shorter |
| DocId.FirstDocId | app/services/doc_id_service.py:18-20 | a zero or NULL count gives the suffix "001" |
| DocId.DocIdInjective | app/services/doc_id_service.py:20 | within one case, distinct counts give distinct ids |
| LegacyBackend.NextCaseSeq | flattened_backend.py:535-547 | the next number of a key is last_seq + 1, or 1 for a new key, so it is at least 1 and above the stored value |
| LegacyBackend.CaseId | flattened_backend.py:551 | the case id is "CASE-" + day + "-" followed by the sequence number in decimal, zero-padded to exactly four digits when shorter |
| LegacyBackend.CaseIdInjective | flattened_backend.py:551 | within one day, distinct sequence numbers give distinct case ids |
| LegacyBackend.FirstCasesOfADayCoincide | flattened_backend.py:524-551 | the id does not carry the product, so the first cases of two products on the same day get the same id |
| LegacyBackend.CaseSequence.constructor | flattened_backend.py:508-518 | the counter table holds the given last_seq values by (product, day) |
| LegacyBackend.CaseSequence.GenerateCaseId | flattened_backend.py:521-551 | generate_case_id upper-cases the product, stores 1 for a new (product, day) key or last_seq + 1 otherwise, changes no other key, and returns the id of the stored number |
| LegacyBackend.SequencesIncrease | flattened_backend.py:535-547 | two calls for the same key give consecutive numbers, hence distinct ids |
| LegacyBackend.LegacyFormKey | flattened_backend.py:585-590 | the older name key is lower-case with ' ', '/' and '-' all turned into '_', keeping its length |
| LegacyBackend.CodePairs | flattened_backend.py:583-591 | each form row contributes its (stripped, upper-cased code, name key) pair to code_to_name |
| LegacyBackend.NamePairs | flattened_backend.py:583-592 | each form row contributes its (name key, code) pair to name_to_code |
| LegacyBackend.LegacyValidCodes | flattened_backend.py:593-596 | lower-case "unknown" is always a valid code |
| LegacyBackend.LoadDocumentForms | flattened_backend.py:572-596 | the older load_document_forms' loop builds exactly code_to_name and name_to_code (later rows overwriting) and the row codes plus "unknown" |
| LegacyBackend.LegacyFormsConsistent | flattened_backend.py:583-596 | the valid codes are "unknown" and the row codes, and every code a name maps to is valid |
| LegacyBackend.ClassifyPage | flattened_backend.py:610-668 | an empty page is unknown/unknown and not external; a recognised code is written with its form name and not external; otherwise the second call's normalised name is written with its mapped code, or "unknown" when it maps to none or to an empty code, external exactly when it maps to no code; only the unguarded second call's failure raises |
| LegacyBackend.ClassifyPageRules | flattened_backend.py:635-668 | a recognised code is written with code_to_name's name and is never external, an external page is written as "unknown", and every written code is valid |
| LegacyBackend.ClassifyAll | flattened_backend.py:610-668 | the loop writes the rows of all pages, or stops short at a page whose second call raises |
| LegacyBackend.ClassifyAllRows | flattened_backend.py:610-668 | the rows written are the rows of the first pages, in order, and when the loop raised it was at the next page |
| LegacyBackend.ClassifyAllStep | flattened_backend.py:610-668 | one more page after a run that has not raised adds that page's row or stops the run |
| LegacyBackend.ClassifyAllStops | flattened_backend.py:641-651 | once a page raises, the later pages change nothing |
| LegacyBackend.LegacyClassificationTable.ClassifyPages | flattened_backend.py:598-668 | the older classify_pages appends exactly the rows of ClassifyAll and reports whether the exception escaped |
| LegacyBackend.LegacyDetectProduct | flattened_backend.py:785-812 | the older detect_product gives Trade Finance, then Insurance, then RFO, and "Unknown" exactly when no list meets the codes |
| LegacyBackend.MixedCaseLegacyNames | flattened_backend.py:790-801 | every listed name except letter_of_credit, bill_of_exchange and invoice contains an upper-case letter |
| LegacyBackend.LowerCaseNamesLegacy | flattened_backend.py:790-812 | for lower-case classified names the product is Trade Finance exactly when letter_of_credit, bill_of_exchange or invoice occurs, and Unknown otherwise |
| Sessions.FilteredSessions | src/components/Trade_Finance/OCR/Sessions.tsx:18-27 | a session is listed iff its LC number, CIF number or lifecycle contains the search term ignoring case and the status filter is 'all' or its status; the list keeps the store's order |
| Sessions.EmptySearchShowsAll | src/components/Trade_Finance/OCR/Sessions.tsx:18-27 | with an empty search and the 'all' filter every session is listed, in order |
| Sessions.SearchIgnoresCase | src/components/Trade_Finance/OCR/Sessions.tsx:19-22 | the case of the search term does not change which sessions are listed |
| Sessions.RowActions | src/components/Trade_Finance/OCR/Sessions.tsx:85-87 | a row always offers View, and offers Delete exactly when its status is not 'completed' |
| Sessions.DeleteUrl | src/components/Trade_Finance/OCR/Sessions.tsx:62-65 | handleDeleteSession ignores its argument: the id sent is the stored 'documentId', or "null" when none is stored |
| Sessions.ViewId | src/components/Trade_Finance/OCR/Sessions.tsx:48 | `sessionID \|\| id`: a present, non-empty sessionID, else the store's id |
| Sessions.ViewSession | src/components/Trade_Finance/OCR/Sessions.tsx:40-59 | the stored snapshot and the route both use that id, and the snapshot copies the CIF number, LC number, lifecycle, status and creation time |
| Dashboard.RecentSessions | src/components/Trade_Finance/OCR/Dashboard.tsx:30-39 | the recent sessions are the store's first five when it has any, in order; otherwise the stored list |
| Dashboard.DashboardStats | src/components/Trade_Finance/OCR/Dashboard.tsx:41-72 | the tiles show the number of recent sessions and how many of them are completed, in progress (uploading, processing or reviewing) and pending review (reviewing); Pending Review never exceeds In Progress, and Completed plus In Progress never exceeds the total |
| Dashboard.StatusColor | src/components/Trade_Finance/OCR/Dashboard.tsx:74-87 | a status lower-cased to uploading, completed, failed or pending gets blue, green, red or yellow; an absent or any other status gets gray |
| Dashboard.StatusColorIgnoresCase | src/components/Trade_Finance/OCR/Dashboard.tsx:74-87 | the colour does not depend on the case of the status |
| RoleManagement.Toggle | src/components/Administration/RoleManagement.tsx:114-120 | togglePermission removes a present permission (every copy of it) and appends an absent one, leaves every other permission's membership alone, and keeps a duplicate-free list duplicate-free |
| RoleManagement.ToggleTwice | src/components/Administration/RoleManagement.tsx:114-120 | toggling twice gives every permission back its membership and never creates a duplicate |
| RoleManagement.SaveEdit | src/components/Administration/RoleManagement.tsx:99-100 | an edit save keeps the list's length and order, gives each role with the form's id every field of the form (its id and, when the form has none, its creation time kept), and leaves every other role unchanged |
| RoleManagement.SaveEditIdempotent | src/components/Administration/RoleManagement.tsx:99-100 | saving the same edit twice gives the same list as saving it once |
| RoleManagement.SaveUnchangedForm | src/components/Administration/RoleManagement.tsx:96-106 | with unique ids, saving a role's own form unchanged leaves the list as it was |
| RoleManagement.SavedRoles | src/components/Administration/RoleManagement.tsx:96-106 | a blank role name changes nothing; an edit with a non-zero id is SaveEdit; otherwise NewRole built from the form is prepended to the unchanged list |
| RoleManagement.DeleteRole | src/components/Administration/RoleManagement.tsx:110-112 | delete removes every role with that id and keeps the others in order |
| RoleManagement.Stats | src/components/Administration/RoleManagement.tsx:58-63 | the tiles show the number of roles, how many are system and how many are custom roles, and the sum of the roles' user counts; system plus custom roles equals the total, since every role is one or the other |
| RoleManagement.TotalUsersPrepend | src/components/Administration/RoleManagement.tsx:62 | a new role adds its own user count to the total users |
| RoleManagement.FilteredRoles | src/components/Administration/RoleManagement.tsx:65-74 | a role is listed iff its name or description contains the search term ignoring case and the type filter is 'all' or its type; the list keeps the order |
| RoleManagement.EmptySearchShowsAll | src/components/Administration/RoleManagement.tsx:65-74 | with an empty search and the 'all' filter every role is listed, in order |
| RoleManagement.RoleScreen.constructor | src/components/Administration/RoleManagement.tsx:50-56 | the screen starts with the initial roles, the modal closed, a blank form and select-all unchecked |
| RoleManagement.RoleScreen.OpenModal | src/components/Administration/RoleManagement.tsx:76-94 | opening for edit copies the role into the form and checks select-all iff its permission count equals the full list's length; opening for create gives the blank form and unchecks it; the modal opens either way |
| RoleManagement.RoleScreen.CloseModal | src/components/Administration/RoleManagement.tsx:231-234 | the X button closes the modal and keeps the form, the edit mode, select-all and the role list |
| RoleManagement.RoleScreen.SetRoleName | src/components/Administration/RoleManagement.tsx:243-248 | typing a role name changes only the form's role name |
| RoleManagement.RoleScreen.SetDescription | src/components/Administration/RoleManagement.tsx:249-254 | typing a description changes only the form's description |
| RoleManagement.RoleScreen.SetUserCount | src/components/Administration/RoleManagement.tsx:256-262 | the user-count input changes only the form's user count, to the number entered |
| RoleManagement.RoleScreen.SetRoleType | src/components/Administration/RoleManagement.tsx:263-270 | the type select changes only the form's role type |
| RoleManagement.RoleScreen.HandleSave | src/components/Administration/RoleManagement.tsx:96-108 | the list becomes SavedRoles of the form, and the modal closes unless the role name was blank |
| RoleManagement.RoleScreen.HandleDelete | src/components/Administration/RoleManagement.tsx:110-112 | the role is deleted only once the user confirms |
| RoleManagement.RoleScreen.TogglePermission | src/components/Administration/RoleManagement.tsx:114-120 | only the form's permissions change, as Toggle says |
| RoleManagement.RoleScreen.HandleSelectAll | src/components/Administration/RoleManagement.tsx:122-130 | select-all alternates between the full permission list and [], flipping the flag each time |
| UserManagement.MaxId | src/components/Administration/UserManagement.tsx:104 | `Math.max(0, ...ids)`: at least 0, at least every id, and equal to some id when positive |
| UserManagement.NewId | src/components/Administration/UserManagement.tsx:104 | a new user's id is 1 + max(0, existing ids), so it is at least 1 and greater than every existing id |
| UserManagement.NewUser | src/components/Administration/UserManagement.tsx:102-109 | a created user gets the new id and the creation time, status 'active' unless the form chose one, and the default avatar unless the form gave one |
| UserManagement.SaveEdit | src/components/Administration/UserManagement.tsx:97-100 | an edit save keeps the list's length and order, merges the form into the user whose id is being edited, and leaves every other user unchanged |
| UserManagement.SavedUsers | src/components/Administration/UserManagement.tsx:91-111 | without a first name and an email nothing changes; with a non-zero editingId the edit is applied; otherwise the new user is prepended |
| UserManagement.DeleteUser | src/components/Administration/UserManagement.tsx:118-121 | delete removes the user with that id and keeps the others in order |
| UserManagement.SaveKeepsInvariant | src/components/Administration/UserManagement.tsx:91-111 | saving keeps user ids unique and statuses among those the select offers |
| UserManagement.IdAbsentAfterDelete | src/components/Administration/UserManagement.tsx:120 | an id absent from the list stays absent after a delete |
| UserManagement.DeleteKeepsUniqueIds | src/components/Administration/UserManagement.tsx:118-121 | deleting keeps user ids unique |
| UserManagement.ActivePlusInactiveIsTotal | src/components/Administration/UserManagement.tsx:67-75 | active plus inactive equals the total while every status is one the select offers |
| UserManagement.Stats | src/components/Administration/UserManagement.tsx:67-75 | the tiles show the number of users, how many have status active and inactive, and how many have a role containing "admin" ignoring case (a missing role is no admin); active plus inactive and the admin count never exceed the total |
| UserManagement.CountPartition | src/components/Administration/UserManagement.tsx:69-71 | two tiles whose conditions never hold together and cover every user add up to the total |
| UserManagement.AdminCountAsWritten | src/components/Administration/UserManagement.tsx:72 | as written, the admin tile raises exactly when some user has no role, and otherwise counts the roles containing "admin" ignoring case |
| UserManagement.SomeFieldAsWritten | src/components/Administration/UserManagement.tsx:82-84 | as written, some() over the fields succeeds with true exactly when a field is the first to contain the term and every field before it is present |
| UserManagement.FilteredUsers | src/components/Administration/UserManagement.tsx:77-89 | intended filter: a user is listed iff the search is empty or the first name, last name, username or email contains it ignoring case, and the status filter is 'all' or its status; the list keeps the order |
| UserManagement.SomeFieldOkValue | src/components/Administration/UserManagement.tsx:82-84 | when some() over the fields does not raise, it finds the term exactly when some field contains it, ignoring case |
| UserManagement.FilteredUsersAsWritten | src/components/Administration/UserManagement.tsx:77-89 | the filter as written raises exactly when the search is not empty and the field search of some user raises; otherwise it lists exactly the users of the intended filter, in order |
| UserManagement.EmptySearchShowsAll | src/components/Administration/UserManagement.tsx:80-81 | an empty search with the 'all' filter lists every user |
| UserManagement.SomeFieldAllPresent | src/components/Administration/UserManagement.tsx:82-84 | with every field present nothing raises, and some() finds the term iff a field contains it |
| UserManagement.FilterAgreesWhenFieldsPresent | src/components/Administration/UserManagement.tsx:77-89 | where every user has all fields the filter as written yields the intended list |
| UserManagement.CreatedUserBreaksSearch | src/components/Administration/UserManagement.tsx:82-84 | a user created through the modal has no username, so a search not found in its first or last name raises |
| UserManagement.CreatedUserWithoutRoleBreaksStats | src/components/Administration/UserManagement.tsx:72 | a user created without typing a role makes the admin tile raise |
| UserManagement.UserScreen.constructor | src/components/Administration/UserManagement.tsx:59-62 | the screen starts with the initial users, the modal closed, no editingId and an empty form |
| UserManagement.UserScreen.OpenCreate | src/components/Administration/UserManagement.tsx:135-136 | the Add User button only opens the modal, leaving the form and editingId as they were |
| UserManagement.UserScreen.OpenEdit | src/components/Administration/UserManagement.tsx:211-214 | a row's edit button sets editingId to the user's id, copies the user into the form and opens the modal |
| UserManagement.UserScreen.EditForm | src/components/Administration/UserManagement.tsx:247-295 | typing changes the fields the modal has inputs for, and the status only to the select's values; the id, username and creation time are kept |
| UserManagement.UserScreen.CloseModal | src/components/Administration/UserManagement.tsx:237 | closing the modal keeps the form and editingId |
| UserManagement.UserScreen.HandleSave | src/components/Administration/UserManagement.tsx:91-116 | without a first name and an email nothing changes; otherwise the list becomes SavedUsers, the form is emptied, editingId cleared and the modal closed |
| UserManagement.UserScreen.HandleDelete | src/components/Administration/UserManagement.tsx:118-121 | the user is deleted only once the user confirms, keeping ids unique |
| UserManagement.AdminTileZeroIffNoAdmin | src/components/Administration/UserManagement.tsx:72 | the intended admin tile counts only users with a role containing "admin", never raises, and shows 0 iff no user is an admin |
| VesselTracking.StatusText | src/components/Trade_Finance/OCR/VesselTracking.tsx:42-56 | codes 0 to 9 give the table's text, any other code "Unknown (<code>)", a null status "Unknown (null)" and a missing status "Unknown" |
| VesselTracking.ListedAndUnlistedDiffer | src/components/Trade_Finance/OCR/VesselTracking.tsx:42-56 | a code in the table and one outside it never show the same text |
| VesselTracking.ListedCodesDistinct | src/components/Trade_Finance/OCR/VesselTracking.tsx:43-54 | two different codes in the table show different texts |
| VesselTracking.DigitsAreNotBlank | src/components/Trade_Finance/OCR/VesselTracking.tsx:59 | a non-empty digit string is not blank, so the trim test on the MMSI is an emptiness test |
| VesselTracking.VesselScreen.constructor | src/components/Trade_Finance/OCR/VesselTracking.tsx:37-40 | the screen starts with an empty MMSI, no vessel, not loading and no error |
| VesselTracking.VesselScreen.OnMmsiChange | src/components/Trade_Finance/OCR/VesselTracking.tsx:119-125 | a value of at most nine digits replaces the MMSI and anything else is ignored; nothing else changes |
| VesselTracking.VesselScreen.FetchVessel | src/components/Trade_Finance/OCR/VesselTracking.tsx:58-80 | an empty MMSI requests nothing and changes nothing; otherwise the vessel URL is requested, a body with data shows the vessel, one without shows its message or "No valid data received.", a thrown error shows "Unable to fetch vessel data.", and loading ends |
| Screening.FieldEnd | server/python/split_OCR.py:178 | the lazy group stops at the first `\n\d{2}[A-Z]:` tag at or after its start, or at the end of the text |
| Screening.GoodsSpan | server/python/split_OCR.py:178 | a match exists iff the text contains "45A:"; the group starts after the first "45A:" and the whitespace after it and ends before the next field tag or at the end |
| Screening.Normalize | server/python/split_OCR.py:180 | collapsing whitespace runs and stripping leaves single spaces only, never two together and none at either end |
| Screening.ExtractGoodsDescription | server/python/split_OCR.py:177-182 | without "45A:" the result is the no-goods sentinel; otherwise it is the normalised text of the 45A field |
| Screening.GoodsText | server/python/OCR_Alone.py:185-188 | the screened text is the 45A description, single-spaced, or the whole text when extraction gives the sentinel |
| Screening.MentionsGoods | server/python/OCR_Alone.py:177 | the goods test holds exactly when, ignoring case, the text holds "45A:" or "description", whitespace, "of", whitespace, "goods"; in particular a text holding "45A:" or "description of goods" in any case passes it |
| Screening.SingleSpacedPhrase | server/python/OCR_Alone.py:177 | "description of goods" written with single spaces matches the whitespace pattern |
| Screening.LowerCaseTagScreensWholeText | server/python/OCR_Alone.py:177-188 | a text whose only tag is written "45a:" passes the case-insensitive goods test but is screened on its whole text |
| Screening.BestOfIsFirstMaximum | server/python/split_OCR.py:192-200 | the best match is the first item with the highest score, the best score is at least every score and at least 0, and there is no match iff no score is above 0 |
| Screening.Scores | server/python/split_OCR.py:195-197 | when every control item has a Description: one score per item, in order, each the ratio of the lower-cased text and description |
| Screening.Verdict | server/python/split_OCR.py:201-207 | controlled iff the best score reaches the threshold; the match item and control code are the best item's, or none without a best item |
| Screening.FindBestMatch | server/python/split_OCR.py:192-207 | raises AttributeError iff some control item has a NULL Description; otherwise the verdict for the first control item with the highest positive score |
| SplitOcr.KeepFormChars | server/python/split_OCR.py:58 | removing every character outside [A-Z0-9 ] leaves only those characters and never lengthens the text |
| SplitOcr.CollapseKeepsFormChars | server/python/split_OCR.py:58-59 | collapsing whitespace runs in a text of [A-Z0-9 ] characters brings in no other character |
| SplitOcr.SanitizeFormName | server/python/split_OCR.py:56-60 | the result is the upper-cased, trimmed name with everything but [A-Z0-9 ] removed and each run of spaces turned into one '_', cut to 50 characters; so it has only [A-Z0-9_] and never two '_' in a row |
| SplitOcr.SanitizeCleanName | server/python/split_OCR.py:56-60 | a name already made of upper-case letters, digits and single inner spaces, at most 50 long, only has its spaces turned into '_' |
| SplitOcr.SanitizeSpace | server/python/split_OCR.py:56-60 | the name "A B" becomes "A_B" |
| SplitOcr.SanitizeUnderscore | server/python/split_OCR.py:56-60 | the name "A_B" becomes "AB": the underscore is dropped |
| SplitOcr.SanitizeNotIdempotent | server/python/split_OCR.py:56-60 | sanitising is not idempotent: "A_B" is the result for "A B", yet sanitising it again gives "AB" |
| SplitOcr.RotationLengths | server/python/split_OCR.py:71-73 | each rotation is scored by the length of its stripped text, in rotation order |
| SplitOcr.LongestRotationText | server/python/split_OCR.py:65-75 | the kept text is the stripped text of the first rotation with the longest stripped text, or "" when every rotation is empty |
| SplitOcr.AzureDocText | server/python/split_OCR.py:137-139 | a page's Document Intelligence text is the cached page at its index, or "" when the analysis raised or the page lies past the analysed pages |
| SplitOcr.ExtractTextMultiOcr | server/python/split_OCR.py:127-172 | the vision text when usable, else the Document Intelligence text when usable, else the Tesseract text when usable, else "[NO TEXT FOUND]" with no source, usable meaning more than 10 characters after stripping; the three engine texts are returned as they were |
| SplitOcr.FinalTextIsUsableOrSentinel | server/python/split_OCR.py:149-161 | the kept text has more than 10 characters after stripping whenever an engine was kept, and is the sentinel otherwise |
| SplitOcr.PageFinalText | server/python/split_OCR.py:266-267 | an empty page text or one under 10 stripped characters becomes "[NO TEXT FOUND]"; any other is kept |
| SplitOcr.PageCheckIsNoOp | server/python/split_OCR.py:266-275 | the page check never changes the engine's text, and fields are skipped whenever no engine was kept |
| SplitOcr.FieldsExtracted | server/python/split_OCR.py:272-275 | fields are extracted from a page whose stripped text has at least 10 characters and is not the sentinel, and from no other page |
| SplitOcr.AzureCache.constructor | server/python/split_OCR.py:50 | the cache starts empty |
| SplitOcr.AzureCache.Pages | server/python/split_OCR.py:77-87 | a filled cache is returned unchanged, whatever PDF is asked for; an empty one is filled with the analysed pages, or stays empty when the analysis raised |
| SplitOcr.PagePart | server/python/split_OCR.py:288-295 | a page adds nothing iff it has no goods section, and otherwise exactly its goods text |
| SplitOcr.GoodsTexts | server/python/split_OCR.py:288-295 | the collected goods texts are at most one per page |
| SplitOcr.GoodsTextsEmpty | server/python/split_OCR.py:288-299 | nothing is collected iff no page has a goods section |
| SplitOcr.PageGoods | server/python/split_OCR.py:288-295 | one page of the loop adds its 45A description, or its whole text when it has none, when it has a goods section |
| SplitOcr.CollectGoodsTexts | server/python/split_OCR.py:246-295 | the page loop collects the goods texts of the pages in order |
| SplitOcr.CombinedGoods | server/python/split_OCR.py:300-303 | the combined goods text is single-spaced and has no newline left |
| SplitOcr.ShortDescription | server/python/split_OCR.py:310-313 | the short description is the first line, normalised, or its first 20 words followed by "..." when it has more than 20 |
| SplitOcr.SplitWithoutSeparator | server/python/split_OCR.py:310 | a text without the separator splits into itself alone |
| SplitOcr.NormalizeSingleSpaced | server/python/split_OCR.py:311 | normalising a single-spaced text changes nothing |
| SplitOcr.CollapseSingleSpaced | server/python/split_OCR.py:303 | collapsing the whitespace of a text whose whitespace is isolated single spaces changes nothing |
| SplitOcr.ShortDescriptionOfCombined | server/python/split_OCR.py:300-313 | because the combined text has no newline, the short description is taken from all pages' goods text, not from the first page's |
| SplitOcr.ScreenPages | server/python/split_OCR.py:299-316 | no screening iff no page has a goods section; otherwise the combined goods text is matched at threshold 0.55 and stored with its short description, and the run raises iff some control item has a NULL Description |
| OcrAlone.PageTexts | server/python/OCR_Alone.py:46-48 | one text per page, in order, a page without text counting as the empty string |
| OcrAlone.ExtractTextFromPdf | server/python/OCR_Alone.py:43-49 | every page's text followed by a newline, in order, the whole stripped |
| OcrAlone.OcrPart | server/python/OCR_Alone.py:77-80 | a blank page adds nothing; any other page adds its stripped text and a blank line, which is not blank |
| OcrAlone.AppendOcrPages | server/python/OCR_Alone.py:77-80 | the OCR loop appends, in page order, each non-blank page's part to what was there |
| OcrAlone.ExtractTextFallback | server/python/OCR_Alone.py:64-81 | the Azure text when the method is "azure" in any case and that text is not blank; otherwise the OCR page parts after it, stripped |
| OcrAlone.FallbackText | server/python/OCR_Alone.py:64-81 | the fallback is the Azure text when the method is "azure" in any case and that text is not blank, and otherwise a stripped text |
| OcrAlone.FallbackIsOcrPages | server/python/OCR_Alone.py:64-81 | unless the Azure text is used, the fallback is the OCR page parts alone, stripped: a blank Azure text in front disappears |
| OcrAlone.OcrPartBlank | server/python/OCR_Alone.py:78-80 | a page's part is blank iff its text is |
| OcrAlone.AllBlankMeansEveryPage | server/python/OCR_Alone.py:77-80 | the recursive all-blank test holds iff every page's text is blank |
| OcrAlone.OcrPagesBlank | server/python/OCR_Alone.py:77-81 | the OCR pages give a blank text iff every page's text is blank |
| OcrAlone.FallbackBlankIffNoPageText | server/python/OCR_Alone.py:64-81 | unless the Azure text is used, the fallback is blank iff every OCR page is blank |
| OcrAlone.DocumentText | server/python/OCR_Alone.py:160-164 | the document text is the embedded text when not blank, else the fallback when not blank, else "[NO TEXT FOUND]"; it is never blank |
| OcrAlone.ScreenDocument | server/python/OCR_Alone.py:177-198 | screening is skipped iff the text has no "45A:" and no "description of goods" ignoring case; otherwise the goods text is matched against the control list at threshold 0.55, and the run raises iff some control item has a NULL Description |
| Catalog.TitleCase | server/python/catalog_with_master.py:34 | title-casing keeps the length and every non-letter, upper-cases a letter that starts a run of letters and lower-cases the others |
| Catalog.TitleCaseIdempotent | server/python/catalog_with_master.py:34 | title-casing twice is title-casing once |
| Catalog.FolderNameToReadable | server/python/catalog_with_master.py:32-34 | ignoring case, the readable name is the name with '_' turned into spaces and trimmed, and a letter is upper-case exactly when it starts a run of letters |
| Catalog.BillOfLadingReadable | server/python/catalog_with_master.py:32-34 | "bill_of_lading" reads as "Bill Of Lading", as the docstring says |
| Catalog.GetMasterDocuments | server/python/catalog_with_master.py:7-29 | the candidates are the active master documents followed by the active sub-documents, each list in its order |
| Catalog.CleanFolderName | server/python/catalog_with_master.py:50 | the cleaned folder name keeps the length, has no upper-case letter and no underscore |
| Catalog.CatalogScores | server/python/catalog_with_master.py:56-58 | one score per candidate, in order, each the ratio of the cleaned folder name and the lower-cased candidate name |
| Catalog.MasterWinsTies | server/python/catalog_with_master.py:56-63 | a master document that reaches the best score wins over every sub-document with that score |
| Catalog.RecordOf | server/python/catalog_with_master.py:65-96 | a best score below 0.3, or no candidate above 0.0, clears the matched name and id; the score is stored either way, with the parsed session, document and matched UUIDs |
| Catalog.CatalogGroupedText | server/python/catalog_with_master.py:46-97 | a candidate with a NULL name raises; otherwise the record is the one for the first candidate with the highest score |
| Catalog.RemoveAll | server/python/catalog_with_master.py:72 | removing a pattern's occurrences never lengthens the text |
| Catalog.RemoveAllAbsent | server/python/catalog_with_master.py:72 | a pattern holding a character the text lacks changes nothing |
| Catalog.StripChars | server/python/catalog_with_master.py:72 | stripping a set of characters never lengthens the text and leaves none of them at either end |
| Catalog.UuidHex | server/python/catalog_with_master.py:72 | what the UUID parser keeps of a text is never longer than it |
| Catalog.SafeUuid | server/python/catalog_with_master.py:70-74 | a value reads as a UUID iff, after the prefixes, braces and dashes are removed, it is 32 hex digits; the result is then those digits in lower case, and a missing value is no UUID |
| Catalog.CanonicalHasNoPrefixOrBraces | server/python/catalog_with_master.py:72 | the canonical 8-4-4-4-12 form has no prefix or braces for the parser to remove |
| Catalog.CanonicalDashes | server/python/catalog_with_master.py:72 | removing the dashes of the canonical form gives back the 32 hex digits |
| Catalog.UuidHexOfCanonical | server/python/catalog_with_master.py:72 | the parser reads the canonical form back as its 32 hex digits |
| Catalog.SafeUuidCanonical | server/python/catalog_with_master.py:70-76 | round trip: a UUID written in canonical form reads back as itself |

## Left out

- SQL and the stored procedures (`sp_*` and the `app/crud` modules that only call them) are not part of this model. Their effects are taken from the Python around them. The comments state that a new final-OCR record is version 0 and DRAFT (app/crud/final_ocr.py:56-60) and that an edit increments the version (app/crud/final_ocr.py:104). That approval sets the status APPROVED and records the approver as last editor is inferred from the summary service, which selects the APPROVED row and reads its `last_edited_by` as the approver (app/services/document_summary_service.py:73-83).
- DocumentSummary.LoweredNames: the filter `classified_name <> 'unknown'` (app/services/document_summary_service.py:66) follows the column's collation, which under SQL Server's default ignores case; the model compares case-sensitively. Both classifiers write only the lower-case "unknown", so no stored row tells the two apart.
- FinalOcr.EditStep: whether `sp_update_final_ocr` refuses an APPROVED record cannot be seen from the Python, although the comments call approval a lock (app/crud/final_ocr.py:123). The model lets the edit through: the version goes up, the JSON is replaced and the status stays APPROVED.
- Azure Document Intelligence, Azure OpenAI, Tesseract, PyMuPDF, pdf2image and the language model are foreign calls. Their outputs, including the confidence read by `float(conf)`, are inputs of the model; a call that raises inside a `try` is `None`.
- Tesseract and pdf2image calls that are outside any `try` (server/python/split_OCR.py:131, server/python/OCR_Alone.py:66 and :78) end the run when they raise. The model has no such path: their outputs are always present.
- Screening.Scores: the `difflib.SequenceMatcher` ratio is a function parameter, because it is floating-point library code.
- Catalog.CatalogScores: the same ratio is a function parameter.
- Screening.Verdict: the match score is kept unrounded; the source rounds it to two decimals with `round`.
- Text: whitespace, upper case and lower case are ASCII only. Python's and JavaScript's Unicode rules are not modelled, including the special cases of Python's `upper()`.
- Text.IsSpace: whitespace is space, tab, line feed, carriage return, vertical tab and form feed. Python's `strip()`, `split()`, `str.isspace` and the regex class `\s` also treat the separators U+001C to U+001F as whitespace, so for the modules of Python code (Screening, SplitOcr, OcrAlone, Catalog, Lifecycle, Classification, DocumentSummary, LegacyBackend) a text holding them is trimmed, split or collapsed differently from the source.
- Catalog.SafeUuid: `uuid.UUID` also accepts a few spellings this model rejects (a `+` sign, a `0x` prefix, underscores or surrounding whitespace, which `int()` tolerates). Every canonical UUID is accepted, as SafeUuidCanonical proves.
- The clock: the day of a case id and the creation time of a user are inputs.
- HTTP requests, routing, `localStorage`, `alert`, `confirm`, JSX rendering, styling, navigation and date formatting. Each request is a parameter holding its reply, or a returned URL or payload.
- Concurrency: `Promise.all` on the review screen, the worker pool, races between stale replies, and the 5-second delay after an upload. Every operation is sequential.
- `fetchCustomerIfExists` on the upload screen only fills form fields from a lookup reply, so it is not modelled.
- Catalog.FolderNameToReadable: nothing calls `folder_name_to_readable`, so no catalogue record uses it.
- The command-line entry points of the scripts, including the OCR method they pass: the command line's default method is "azure" while `process_pdf` defaults to "tesseract". The method is an input of OcrAlone.ExtractTextFallback.
- File handling: page PDFs, text and JSON files, folder listings and `read_grouped_text`.
- `catalog_all_grouped_documents` only lists folders and calls `catalog_grouped_text` for each, which Catalog.CatalogGroupedText models.
- `extract_fields` and the per-page saves of the splitting script are I/O. Only the decision whether fields are extracted is modelled, by SplitOcr.FieldsExtracted.
- The final-OCR query in `app/crud/draft.py` never selects `status`. The review screen's APPROVED check therefore cannot fire from that reply. SessionDetail.ReviewPanel.TabDataLoaded models the screen's side only, with the status as an input.
- SummaryState: a documents_json that parses to a JSON string, number or boolean is not modelled, because no writer in the source stores one. The screen would keep that value as its summary pages and set the finalised flag from `Object.keys`, so a non-empty string would lock the panel and a number or boolean would not.
- RoleManagement.RoleScreen.SetUserCount: takes the count as an integer. The `Number(...)` conversion of the input's text is not modelled, so an empty input (which gives 0) and a fractional count are not distinguished from other integers.

## Where the code departs from its description

The model follows the code in each case.

- The pipeline writes COMPLETED and then FAILED when only the final PROCESSING_COMPLETED audit raises. So COMPLETED can be written during a failed run, although it is never the final status (DocumentProcessor).
- Even called by doc_id alone, the pipeline's summary call would raise: the record it has just created is a DRAFT, and a summary needs an APPROVED one (DocumentProcessor.SummaryAfterCreateRaises). The summary is made on approval instead (DocumentProcessor.SummaryAfterApprovalSucceeds).
- The legacy case id does not contain the product, so the first cases of two products on one day get the same id (LegacyBackend.FirstCasesOfADayCoincide).
- The summary service lower-cases the classified names before product detection, but the insurance and RFO code sets are upper case. Only "Trade Finance" or "Unknown" can result (DocumentSummary.LowerCaseNamesAreTradeOrUnknown). The older back end does not lower-case the names again: they are already lower case because its classifier takes them from lower-cased form keys. There, only the three all-lower-case trade names can match, and Insurance and RFO never can (LegacyBackend.LowerCaseNamesLegacy).
- The finalise lock is not one-way. The summary re-fetch after approval overwrites it, and an empty or failed reply unlocks the screen (SessionDetail.ApprovalWithoutSummaryUnlocks).
- The "Create New Session" card (Upload.tsx:482-778) is always shown. The `showCreateSession` flag that Cancel, "Create First Session" and a successful creation write is read nowhere, so Cancel hides nothing (Upload.UploadScreen.CancelCreateForm). "Create First Session" (Upload.tsx:826-836) is never rendered: the picker only appears when the customer has a session (Upload.tsx:796), and then its list is never empty (Upload.ShownCustomerSessions).
- The session picker that is rendered lists the current customer's sessions whatever their status, so a completed or frozen session can be shown and selected. The memo that drops them, and keeps one LC number by default, is shadowed by the picker's own `filteredSessions` and never rendered (Upload.ShownPickerKeepsCompleted).
- The Create button's eight-field check is not stricter than the handler's five-field check: neither implies the other (Upload.CreateChecksIncomparable).
- Add User only opens the modal. The form and editingId left by an earlier edit are kept (UserManagement.UserScreen.OpenCreate).
- `handleDeleteSession` ignores its argument (Sessions.DeleteUrl).
- `sanitize_form_name` is not idempotent (SplitOcr.SanitizeNotIdempotent).
- The page check of the splitting script never changes the text that the engine choice produced (SplitOcr.PageCheckIsNoOp).
- A score of 0.0 never counts as a match, so with every score 0 there is no best item (Screening.BestOfIsFirstMaximum).
- The Document Intelligence cache is filled once and then returned for every PDF (SplitOcr.AzureCache.Pages).
- The combined goods text has no newline left. The short description therefore covers all pages, not the first line (SplitOcr.ShortDescriptionOfCombined).
- A message whose only tag is written "45a:" passes the goods test but is screened on its whole text (Screening.LowerCaseTagScreensWholeText).
- The navigational-status table covers codes 0 to 9 only. Codes 10 to 15 show as "Unknown (n)" (VesselTracking.StatusText).

## Findings

| source | as written | input that shows it | evidently intended | confidence | as-written member | corrected member |
|---|---|---|---|---|---|---|
| app/services/document_processor.py:50 | `create_document_summary` is called with four arguments, but `app/services/document_summary_service.py:30` takes one, so the call raises a TypeError | any document whose earlier steps succeed | the pipeline makes no summary call and completes; the summary is created when the final OCR is approved, as `app/api/v1/review_endpoint.py:32-35` does, since a summary needs an APPROVED record and a just-created one is a DRAFT | not executed | DocumentProcessor.AsWrittenNeverCompletes | DocumentProcessor.Pipeline.ProcessDocumentTask |
| src/components/Administration/UserManagement.tsx:82-84 | the search calls `toLowerCase()` on `username`, which a user created through the modal never has | create a user, then search for a term not in their first or last name | a missing field does not match and nothing raises | not executed | UserManagement.CreatedUserBreaksSearch | UserManagement.FilterAgreesWhenFieldsPresent |
| src/components/Administration/UserManagement.tsx:72 | the admin tile calls `toLowerCase()` on `role`, which is missing when the form's role was left empty | create a user without typing a role | a user without a role is not an admin | not executed | UserManagement.CreatedUserWithoutRoleBreaksStats | UserManagement.AdminTileZeroIffNoAdmin |

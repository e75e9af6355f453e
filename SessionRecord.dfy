/** The session record held by the front end's session store and shown by the upload, session
    list and dashboard screens. */
module SessionRecord {
  import opened Wrappers

  /** `sessionID` is the optional backend identifier; `id` the store's own. Statuses are the
      lower-case words the store uses ("uploading", "processing", "reviewing", "completed", "frozen"). */
  datatype Session = Session(
    id: string,
    sessionID: Option<string>,
    lcNumber: string,
    cifNumber: string,
    lifecycle: string,
    status: string,
    createdAt: string)
}

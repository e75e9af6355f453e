/** The dashboard: the recent-session list and the four status counts shown above it. */
module Dashboard {
  import opened Wrappers
  import opened Text
  import opened Lists
  import opened SessionRecord

  const RecentLimit: nat := 5

  /** The store's first five sessions when it has any; otherwise the list stored by an earlier
      visit. */
  function RecentSessions(sessions: seq<Session>, stored: seq<Session>): (r: seq<Session>)
    ensures |sessions| > 0 ==> |r| == (if |sessions| < RecentLimit then |sessions| else RecentLimit)
    ensures |sessions| > 0 ==> forall i :: 0 <= i < |r| ==> r[i] == sessions[i]
    ensures |sessions| == 0 ==> r == stored
  {
    if |sessions| > 0 then sessions[..if |sessions| < RecentLimit then |sessions| else RecentLimit]
    else stored
  }

  predicate IsCompleted(s: Session) { s.status == "completed" }
  predicate IsInProgress(s: Session) { s.status in ["uploading", "processing", "reviewing"] }
  predicate IsPendingReview(s: Session) { s.status == "reviewing" }

  datatype Stats = Stats(total: nat, completed: nat, inProgress: nat, pendingReview: nat)

  /** The four tiles: the number of recent sessions, then how many of them are completed, in
      progress and pending review. Every session pending review is in progress, and no completed
      session is, so the tiles never add up to more than the total. */
  function DashboardStats(recent: seq<Session>): (st: Stats)
    ensures st.total == |recent|
    ensures st.completed == Count(recent, IsCompleted)
    ensures st.inProgress == Count(recent, IsInProgress)
    ensures st.pendingReview == Count(recent, IsPendingReview)
    ensures st.pendingReview <= st.inProgress && st.completed + st.inProgress <= st.total
  {
    CountMonotone(recent, IsPendingReview, IsInProgress);
    CountDisjoint(recent, IsCompleted, IsInProgress);
    Stats(|recent|, Count(recent, IsCompleted), Count(recent, IsInProgress), Count(recent, IsPendingReview))
  }

  /** The colour of each known status, in lower case. */
  const KnownStatusColors: map<string, string> :=
    map["uploading" := "text-blue-600", "completed" := "text-green-600",
        "failed" := "text-red-600", "pending" := "text-yellow-600"]

  /** getStatusColor: `status?.toLowerCase()` against the known statuses; an absent status gets
      the default colour. */
  function StatusColor(status: Option<string>): (r: string)
    ensures status.None? ==> r == "text-gray-600"
    ensures status.Some? && ToLower(status.value) in KnownStatusColors ==> r == KnownStatusColors[ToLower(status.value)]
    ensures status.Some? && ToLower(status.value) !in KnownStatusColors ==> r == "text-gray-600"
    ensures r == "text-gray-600" <==> status.None? || ToLower(status.value) !in KnownStatusColors
  {
    if status.None? then "text-gray-600"
    else
      match ToLower(status.value)
      case "uploading" => "text-blue-600"
      case "completed" => "text-green-600"
      case "failed" => "text-red-600"
      case "pending" => "text-yellow-600"
      case _ => "text-gray-600"
  }

  /** The colour does not depend on the case of the status. */
  lemma StatusColorIgnoresCase(status: string)
    ensures StatusColor(Some(ToUpper(status))) == StatusColor(Some(status))
    ensures StatusColor(Some(ToLower(status))) == StatusColor(Some(status))
  {
    LowerOfToUpper(status);
    ToLowerIdempotent(status);
  }
}

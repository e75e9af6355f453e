/** The vessel tracking screen: the AIS navigational-status text of a position report
    (Messages 1 to 3 of Recommendation ITU-R M.1371), the MMSI input and the lookup of one vessel. */
module VesselTracking {
  import opened Wrappers
  import opened Text

  // ----------------------------------------------------------------------------------------------
  // Navigational status
  // ----------------------------------------------------------------------------------------------

  /** The screen's table: codes 0 to 9 only. */
  const StatusNames: seq<string> := [
    "Under way using engine", "At anchor", "Not under command", "Restricted manoeuvrability",
    "Constrained by draught", "Moored", "Aground", "Engaged in fishing", "Under way sailing", "Reserved"]

  /** The report's `status` field: absent, JSON null, or a code. */
  datatype NavStatus = Absent | Null | Code(value: int)

  /** statusText: the table's text for codes 0 to 9, "Unknown (<code>)" for any other code,
      "Unknown (null)" for a null status (null is not undefined, and `${null}` is "null"), and
      "Unknown" when the report has no status. */
  function StatusText(status: NavStatus): (r: string)
    ensures status.Code? && 0 <= status.value < |StatusNames| ==> r == StatusNames[status.value]
    ensures status.Code? && !(0 <= status.value < |StatusNames|) ==> r == "Unknown (" + IntToString(status.value) + ")"
    ensures status.Null? ==> r == "Unknown (null)"
    ensures status.Absent? ==> r == "Unknown"
  {
    match status
    case Absent => "Unknown"
    case Null => "Unknown (null)"
    case Code(c) => if 0 <= c < |StatusNames| then StatusNames[c] else "Unknown (" + IntToString(c) + ")"
  }

  /** A listed code and an unlisted one never give the same text: every unlisted code's text
      starts with "Unknown (", which no table entry does. */
  lemma ListedAndUnlistedDiffer(a: int, b: int)
    requires 0 <= a < |StatusNames| && !(0 <= b < |StatusNames|)
    ensures StatusText(Code(a)) != StatusText(Code(b))
  {
    var t := StatusText(Code(b));
    assert t[2] == 'k';
    assert forall k :: 0 <= k < |StatusNames| ==> |StatusNames[k]| > 2 && StatusNames[k][2] != 'k';
  }

  /** Different listed codes give different texts. */
  lemma ListedCodesDistinct(a: int, b: int)
    requires 0 <= a < |StatusNames| && 0 <= b < |StatusNames| && a != b
    ensures StatusText(Code(a)) != StatusText(Code(b))
  {
  }

  // ----------------------------------------------------------------------------------------------
  // The screen
  // ----------------------------------------------------------------------------------------------

  /** The fields of a position report the screen shows. */
  datatype Vessel = Vessel(mmsi: int, status: NavStatus, lat: real, lng: real, cog: real, sog: real, ts: string)

  /** What the backend lookup produced: a thrown error, or a JSON body with optional `data` and
      `message`. */
  datatype FetchOutcome = Thrown | Body(data: Option<Vessel>, message: Option<string>)

  /** `/^\d{0,9}$/`: at most nine ASCII digits. */
  predicate IsMmsiInput(s: string) {
    |s| <= 9 && IsDigits(s)
  }

  /** A non-empty digit string is not blank, so the MMSI's trim test is an emptiness test. */
  lemma DigitsAreNotBlank(s: string)
    requires IsDigits(s) && s != ""
    ensures !IsBlank(s)
  {
    assert IsDigit(s[0]);
  }

  const VesselEndpoint: string := "http://127.0.0.1:8000/vessel/"

  class VesselScreen {
    var mmsi: string
    var vessel: Option<Vessel>
    var loading: bool
    var error: Option<string>

    predicate Valid()
      reads this
    {
      IsMmsiInput(mmsi)
    }

    constructor ()
      ensures Valid() && mmsi == "" && vessel.None? && !loading && error.None?
    {
      mmsi := "";
      vessel := None;
      loading := false;
      error := None;
    }

    /** The input's onChange: a value of at most nine digits replaces the MMSI, anything else is
        ignored. */
    method OnMmsiChange(value: string)
      requires Valid()
      modifies this
      ensures Valid()
      ensures mmsi == (if IsMmsiInput(value) then value else old(mmsi))
      ensures vessel == old(vessel) && loading == old(loading) && error == old(error)
    {
      if |value| <= 9 && forall i :: 0 <= i < |value| ==> IsDigit(value[i]) {
        mmsi := value;
      }
    }

    /** fetchVessel: a blank MMSI sends nothing and changes nothing; otherwise the vessel and the
        error are cleared, the lookup's URL is returned, and the outcome decides: a body with
        data shows the vessel, one without shows its message (or a default), a thrown error a
        fixed message. Loading ends either way. */
    method FetchVessel(outcome: FetchOutcome) returns (requested: Option<string>)
      requires Valid()
      modifies this
      ensures Valid() && mmsi == old(mmsi)
      ensures requested.None? <==> mmsi == ""
      ensures mmsi == "" ==> vessel == old(vessel) && error == old(error) && loading == old(loading)
      ensures mmsi != "" ==> requested == Some(VesselEndpoint + mmsi) && !loading
      ensures mmsi != "" ==> match outcome
        case Thrown => vessel.None? && error == Some("Unable to fetch vessel data.")
        case Body(data, message) =>
          if data.Some? then vessel == data && error.None?
          else vessel.None? &&
               error == Some(if message.Some? && message.value != "" then message.value else "No valid data received.")
    {
      if mmsi != "" {
        DigitsAreNotBlank(mmsi);
      }
      if Trim(mmsi) == "" {
        return None;
      }
      requested := Some(VesselEndpoint + mmsi);
      loading := true;
      error := None;
      vessel := None;
      match outcome {
        case Thrown =>
          error := Some("Unable to fetch vessel data.");
        case Body(data, message) =>
          if data.None? {
            error := Some(if message.Some? && message.value != "" then message.value else "No valid data received.");
          } else {
            vessel := data;
          }
      }
      loading := false;
    }
  }
}

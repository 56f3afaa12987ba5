/**
 * The citizen's report form: field edits, photo selection, location
 * detection and the submit handler, which checks the three required fields
 * and makes up a report id from a random number. `Math.random` and the
 * geolocation answer are parameters.
 */
module ReportIssue {
  import opened Wrappers
  import opened Text

  /** A selected photo; only its identity matters here. */
  datatype PhotoFile = PhotoFile(name: string, size: nat)

  datatype Field = Title | Description | Category | Location

  datatype SubmitOutcome = MissingInformation | Submitted(reportId: string)

  /** `!title || !description || !category` fails: the check is on emptiness, not on trimmed text. */
  predicate RequiredFilled(title: string, description: string, category: string) {
    title != "" && description != "" && category != ""
  }

  /** Whitespace-only fields are not empty strings, so they pass. */
  lemma BlankFieldsPass()
    ensures IsBlank(" ") && RequiredFilled(" ", " ", " ")
  {
  }

  /** `Math.floor(random * 1000)` for a `Math.random()` value. */
  function RandomBelow1000(random: real): (n: nat)
    requires 0.0 <= random < 1.0
    ensures n < 1000
    ensures n as real <= random * 1000.0 < n as real + 1.0
  {
    (random * 1000.0).Floor
  }

  /** `RPT-2024-${String(n).padStart(3, '0')}` */
  function ReportId(random: real): (id: string)
    requires 0.0 <= random < 1.0
    ensures |id| == 12
    ensures id[..9] == "RPT-2024-"
    ensures AllDigits(id[9..]) && ParseDecimal(id[9..]) == RandomBelow1000(random)
  {
    var n := RandomBelow1000(random);
    NatToStringWidth(n, 3);
    PadStartDenotes(NatToString(n), 3);
    var digits := PadStart(NatToString(n), 3, '0');
    var id := "RPT-2024-" + digits;
    assert id[9..] == digits;
    id
  }

  /** Two submissions get the same id exactly when their random numbers floor to the same value. */
  lemma ReportIdsCollide(r1: real, r2: real)
    requires 0.0 <= r1 < 1.0 && 0.0 <= r2 < 1.0
    ensures ReportId(r1) == ReportId(r2) <==> RandomBelow1000(r1) == RandomBelow1000(r2)
  {
    if ReportId(r1) == ReportId(r2) {
      assert ReportId(r1)[9..] == ReportId(r2)[9..];
    }
  }

  class ReportForm {
    var title: string
    var description: string
    var category: string
    var location: string
    var photos: seq<PhotoFile>

    constructor()
      ensures title == "" && description == "" && category == "" && location == "" && photos == []
    {
      title, description, category, location, photos := "", "", "", "", [];
    }

    /** `handleSubmit`: changes no field; reports the missing fields or the new id. */
    method HandleSubmit(random: real) returns (outcome: SubmitOutcome)
      requires 0.0 <= random < 1.0
      ensures outcome == MissingInformation <==> !RequiredFilled(title, description, category)
      ensures outcome.Submitted? ==> outcome.reportId == ReportId(random)
    {
      if title == "" || description == "" || category == "" {
        return MissingInformation;
      }
      outcome := Submitted(ReportId(random));
    }

    /** `handleFileUpload`: the chosen files go after the photos already there, in order. */
    method HandleFileUpload(files: seq<PhotoFile>)
      modifies this
      ensures photos == old(photos) + files
      ensures title == old(title) && description == old(description)
      ensures category == old(category) && location == old(location)
    {
      photos := photos + files;
    }

    /** The `onChange` of a text field or the category select: that field only. */
    method SetField(field: Field, value: string)
      modifies this
      ensures title == (if field == Title then value else old(title))
      ensures description == (if field == Description then value else old(description))
      ensures category == (if field == Category then value else old(category))
      ensures location == (if field == Location then value else old(location))
      ensures photos == old(photos)
    {
      match field
      case Title => title := value;
      case Description => description := value;
      case Category => category := value;
      case Location => location := value;
    }

    /**
     * `handleLocationDetect`: with a position, the location field becomes
     * "lat, lng" at six decimals; without one (no geolocation, or an error)
     * nothing changes.
     */
    method HandleLocationDetect(position: Option<(real, real)>)
      modifies this
      ensures position.Some? ==> location == ToFixed(position.value.0, 6) + ", " + ToFixed(position.value.1, 6)
      ensures position.None? ==> location == old(location)
      ensures title == old(title) && description == old(description)
      ensures category == old(category) && photos == old(photos)
    {
      if position.Some? {
        location := ToFixed(position.value.0, 6) + ", " + ToFixed(position.value.1, 6);
      }
    }
  }
}

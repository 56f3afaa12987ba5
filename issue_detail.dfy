/**
 * The admin issue page: the report is looked up by the route id; the editor
 * state (status, priority, department, the two note drafts) is seeded from it
 * and then changed by the select controls and the note text areas. Adding a
 * note only confirms it and clears the draft that was submitted.
 */
module AdminIssueDetail {
  import opened Wrappers
  import opened Text
  import opened Reports

  /** `reports.find(r => r.id === id)`: the first report with that id. */
  function FindReport(reports: seq<Report>, id: string): (found: Option<Report>)
    ensures found.None? <==> forall r :: r in reports ==> r.id != id
    ensures found.Some? ==>
      exists i :: 0 <= i < |reports| && reports[i] == found.value && found.value.id == id
        && forall j :: 0 <= j < i ==> reports[j].id != id
  {
    if reports == [] then None
    else if reports[0].id == id then Some(reports[0])
    else
      var rest := FindReport(reports[1..], id);
      assert forall r :: r in reports[1..] ==> r in reports;
      assert forall r :: r in reports ==> r == reports[0] || r in reports[1..];
      if rest.Some? then
        var i :| 0 <= i < |reports[1..]| && reports[1..][i] == rest.value && rest.value.id == id
          && forall j :: 0 <= j < i ==> reports[1..][j].id != id;
        assert reports[i + 1] == rest.value;
        rest
      else rest
  }

  /** `value || fallback` on a string. */
  function OrDefault(value: string, fallback: string): string {
    if value != [] then value else fallback
  }

  /** The status select offers exactly these values. */
  const StatusOptions: seq<string> := ["submitted", "acknowledged", "in-progress", "resolved"]

  /** The priority select offers exactly these values. */
  const PriorityOptions: seq<string> := ["low", "medium", "high"]

  lemma OptionsAreTheClosedSets()
    ensures forall s :: s in StatusOptions <==> IsKnownStatus(s)
    ensures forall p :: p in PriorityOptions <==> IsKnownPriority(p)
  {
  }

  /** What the page renders. */
  datatype View = NotFound | EditorView

  class IssueEditor {
    const report: Option<Report>
    const departments: seq<string>
    var status: string
    var priority: string
    var assignedDepartment: string
    var publicNote: string
    var internalNote: string

    /** Editor state seeded from the report: `status || "submitted"`, `priority || "medium"`, `department || ""`. */
    constructor(reports: seq<Report>, departments: seq<string>, id: string)
      ensures report == FindReport(reports, id) && this.departments == departments
      ensures report.None? ==> status == "submitted" && priority == "medium" && assignedDepartment == ""
      ensures report.Some? ==>
        && status == OrDefault(report.value.status, "submitted")
        && priority == OrDefault(report.value.priority, "medium")
        && assignedDepartment == OrDefault(report.value.assignedDepartment.GetOr(""), "")
      ensures publicNote == "" && internalNote == ""
    {
      report := FindReport(reports, id);
      this.departments := departments;
      var r := FindReport(reports, id);
      status := if r.Some? then OrDefault(r.value.status, "submitted") else "submitted";
      priority := if r.Some? then OrDefault(r.value.priority, "medium") else "medium";
      assignedDepartment := if r.Some? then OrDefault(r.value.assignedDepartment.GetOr(""), "") else "";
      publicNote := "";
      internalNote := "";
    }

    /** An id no report has gives the not-found view. */
    function CurrentView(): (v: View)
      reads this
      ensures v == NotFound <==> report.None?
    {
      if report.None? then NotFound else EditorView
    }

    /** The draft a note button submits. */
    function Draft(isPublic: bool): string
      reads this
    {
      if isPublic then publicNote else internalNote
    }

    /** `disabled={!draft.trim()}`: a button is enabled exactly when its draft is not blank. */
    predicate AddEnabled(isPublic: bool)
      reads this
    {
      Trim(Draft(isPublic)) != []
    }

    /** Status, priority and department hold values the selects offer. */
    predicate SelectionsOffered()
      reads this
    {
      status in StatusOptions && priority in PriorityOptions && (assignedDepartment == "" || assignedDepartment in departments)
    }

    /**
     * `handleAddNote`: a blank draft changes nothing; otherwise only the
     * submitted draft is cleared. No note list is extended.
     */
    method HandleAddNote(isPublic: bool) returns (confirmed: bool)
      modifies this
      ensures confirmed <==> old(AddEnabled(isPublic))
      ensures confirmed <==> !IsBlank(old(Draft(isPublic)))
      ensures status == old(status) && priority == old(priority) && assignedDepartment == old(assignedDepartment)
      ensures Draft(isPublic) == (if confirmed then "" else old(Draft(isPublic)))
      ensures Draft(!isPublic) == old(Draft(!isPublic))
    {
      var note := if isPublic then publicNote else internalNote;
      if Trim(note) == [] {
        return false;
      }
      if isPublic {
        publicNote := "";
      } else {
        internalNote := "";
      }
      confirmed := true;
    }

    /** The status select: any offered status, from any current one. */
    method SetStatus(s: string)
      requires s in StatusOptions
      modifies this
      ensures status == s
      ensures priority == old(priority) && assignedDepartment == old(assignedDepartment)
      ensures publicNote == old(publicNote) && internalNote == old(internalNote)
      ensures old(SelectionsOffered()) ==> SelectionsOffered()
    {
      status := s;
    }

    /** The priority select: any offered priority, from any current one. */
    method SetPriority(p: string)
      requires p in PriorityOptions
      modifies this
      ensures priority == p
      ensures status == old(status) && assignedDepartment == old(assignedDepartment)
      ensures publicNote == old(publicNote) && internalNote == old(internalNote)
      ensures old(SelectionsOffered()) ==> SelectionsOffered()
    {
      priority := p;
    }

    /** The department select, listing the configured departments. */
    method SetDepartment(d: string)
      requires d in departments
      modifies this
      ensures assignedDepartment == d
      ensures status == old(status) && priority == old(priority)
      ensures publicNote == old(publicNote) && internalNote == old(internalNote)
      ensures old(SelectionsOffered()) ==> SelectionsOffered()
    {
      assignedDepartment := d;
    }

    /** A note text area's `onChange`. */
    method SetDraft(isPublic: bool, text: string)
      modifies this
      ensures Draft(isPublic) == text && Draft(!isPublic) == old(Draft(!isPublic))
      ensures status == old(status) && priority == old(priority) && assignedDepartment == old(assignedDepartment)
    {
      if isPublic {
        publicNote := text;
      } else {
        internalNote := text;
      }
    }
  }

  /** A report whose status and priority are in the closed sets seeds an editor within the offered values. */
  lemma SeededEditorOffersItsValues(reports: seq<Report>, departments: seq<string>, id: string)
    requires AllStatusesKnown(reports) && AllPrioritiesKnown(reports)
    requires forall r :: r in reports && r.assignedDepartment.Some? ==> r.assignedDepartment.value in departments
    ensures var found := FindReport(reports, id);
      found.Some? ==>
        && OrDefault(found.value.status, "submitted") in StatusOptions
        && OrDefault(found.value.priority, "medium") in PriorityOptions
        && var d := OrDefault(found.value.assignedDepartment.GetOr(""), "");
           d == "" || d in departments
  {
  }
}

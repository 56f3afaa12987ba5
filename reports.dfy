/**
 * The report record the citizen and admin views work on, and the status and
 * priority vocabulary. Fields are strings compared with `===`, so a record may
 * carry a value outside the closed sets; the predicates below say when it does not.
 */
module Reports {
  import opened Wrappers

  datatype Report = Report(
    id: string,
    title: string,
    description: string,
    category: string,
    status: string,
    priority: string,
    assignedDepartment: Option<string>)

  /** The closed status set of the record type. */
  predicate IsKnownStatus(s: string) {
    s == "submitted" || s == "acknowledged" || s == "in-progress" || s == "resolved"
  }

  /** The closed priority set of the record type. */
  predicate IsKnownPriority(p: string) {
    p == "low" || p == "medium" || p == "high"
  }

  predicate IsSubmitted(r: Report) {
    r.status == "submitted"
  }

  /** "In progress" in every view: acknowledged or in-progress. */
  predicate IsInProgress(r: Report) {
    r.status == "acknowledged" || r.status == "in-progress"
  }

  predicate IsResolved(r: Report) {
    r.status == "resolved"
  }

  predicate AllStatusesKnown(reports: seq<Report>) {
    forall r :: r in reports ==> IsKnownStatus(r.status)
  }

  predicate AllPrioritiesKnown(reports: seq<Report>) {
    forall r :: r in reports ==> IsKnownPriority(r.priority)
  }
}

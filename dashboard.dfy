/** The citizen dashboard: the tab filter over the report list and the tab counters. */
module CitizenDashboard {
  import opened Reports
  import opened Seqs

  /** The switch on the selected tab; any tab it does not name keeps every report. */
  predicate TabKeeps(tab: string, r: Report) {
    if tab == "submitted" then IsSubmitted(r)
    else if tab == "progress" then IsInProgress(r)
    else if tab == "resolved" then IsResolved(r)
    else true
  }

  function TabPredicate(tab: string): Report -> bool {
    r => TabKeeps(tab, r)
  }

  /** `filteredReports`: the reports the selected tab shows, in list order. */
  function FilteredReports(reports: seq<Report>, tab: string): (shown: seq<Report>)
    ensures IsSubsequence(shown, reports)
    ensures forall r :: r in shown ==> r in reports && TabKeeps(tab, r)
    ensures forall r :: r in reports && TabKeeps(tab, r) ==> r in shown
  {
    Filter(reports, TabPredicate(tab))
  }

  datatype StatusCounts = StatusCounts(total: nat, submitted: nat, progress: nat, resolved: nat)

  /** `getStatusCounts` */
  function GetStatusCounts(reports: seq<Report>): (c: StatusCounts)
    ensures c.total == |reports|
    ensures c.submitted + c.progress + c.resolved <= c.total
    ensures (forall r :: r in reports ==> IsSubmitted(r)) ==> c.submitted == c.total
    ensures (forall r :: r in reports ==> !IsResolved(r)) ==> c.resolved == 0
  {
    FilterDisjoint3(reports, IsSubmitted, IsInProgress, IsResolved);
    FilterAllOrNone(reports, IsSubmitted);
    FilterAllOrNone(reports, IsResolved);
    StatusCounts(
      |reports|,
      |Filter(reports, IsSubmitted)|,
      |Filter(reports, IsInProgress)|,
      |Filter(reports, IsResolved)|)
  }

  /** The "submitted", "progress" and "resolved" tabs show exactly the reports of their statuses. */
  lemma NamedTabsFilterByStatus(reports: seq<Report>)
    ensures FilteredReports(reports, "submitted") == Filter(reports, IsSubmitted)
    ensures FilteredReports(reports, "progress") == Filter(reports, IsInProgress)
    ensures FilteredReports(reports, "resolved") == Filter(reports, IsResolved)
  {
    FilterAgrees(reports, TabPredicate("submitted"), IsSubmitted);
    FilterAgrees(reports, TabPredicate("progress"), IsInProgress);
    FilterAgrees(reports, TabPredicate("resolved"), IsResolved);
  }

  /** "all", and any other value the switch does not name, shows the whole list unchanged. */
  lemma OtherTabsShowAll(reports: seq<Report>, tab: string)
    requires tab != "submitted" && tab != "progress" && tab != "resolved"
    ensures FilteredReports(reports, tab) == reports
  {
    FilterKeepsAll(reports, TabPredicate(tab));
  }

  /** Each counter on a tab label is the length of the list that tab shows. */
  lemma CountsMatchTabs(reports: seq<Report>)
    ensures GetStatusCounts(reports).total == |FilteredReports(reports, "all")|
    ensures GetStatusCounts(reports).submitted == |FilteredReports(reports, "submitted")|
    ensures GetStatusCounts(reports).progress == |FilteredReports(reports, "progress")|
    ensures GetStatusCounts(reports).resolved == |FilteredReports(reports, "resolved")|
  {
    NamedTabsFilterByStatus(reports);
    OtherTabsShowAll(reports, "all");
  }

  /**
   * The three status tabs never share a report, and when every status is one of
   * the four known values their counters add up to the total.
   */
  lemma StatusTabsPartition(reports: seq<Report>)
    ensures forall r :: r in FilteredReports(reports, "submitted") ==> r !in FilteredReports(reports, "progress")
    ensures forall r :: r in FilteredReports(reports, "submitted") ==> r !in FilteredReports(reports, "resolved")
    ensures forall r :: r in FilteredReports(reports, "progress") ==> r !in FilteredReports(reports, "resolved")
    ensures AllStatusesKnown(reports) ==>
      var c := GetStatusCounts(reports);
      c.submitted + c.progress + c.resolved == c.total
  {
    if AllStatusesKnown(reports) {
      FilterPartition3(reports, IsSubmitted, IsInProgress, IsResolved);
    }
  }

  /** The dashboard page: the report list it was given and the selected tab. */
  class Dashboard {
    const reports: seq<Report>
    var selectedTab: string

    constructor (reports: seq<Report>)
      ensures this.reports == reports && selectedTab == "all"
      ensures Shown() == reports
    {
      this.reports := reports;
      selectedTab := "all";
      new;
      OtherTabsShowAll(reports, "all");
    }

    /** What the list under the tabs shows. */
    function Shown(): seq<Report>
      reads this
    {
      FilteredReports(reports, selectedTab)
    }

    /** `setSelectedTab`, wired to the tab control. */
    method SetSelectedTab(tab: string)
      modifies this
      ensures selectedTab == tab
      ensures Shown() == FilteredReports(reports, tab)
    {
      selectedTab := tab;
    }
  }
}

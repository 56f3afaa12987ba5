/**
 * The chart side of the analytics page: the bar and area chart data (groups
 * without reports dropped, pending = count - resolved, two-line labels), the
 * pie slices with cycling colours, the breakdown lists sorted by size with a
 * rate badge, and the Quick Stats reductions. Its input is the category and
 * department roll-up of AdminAnalytics.
 */
module AnalyticsChart {
  import opened Text
  import opened Seqs
  import opened AdminAnalytics

  const ChartColors: seq<string> := [
    "hsl(212, 83%, 45%)",
    "hsl(142, 71%, 45%)",
    "hsl(43, 96%, 56%)",
    "hsl(0, 84%, 60%)",
    "hsl(260, 100%, 80%)",
    "hsl(180, 100%, 70%)"
  ]

  // ---------------------------------------------------------------------------
  // labels
  // ---------------------------------------------------------------------------

  /** `name.replace(' ', '\n')`: the axis label breaks the name at its first space. */
  function ChartLabel(name: string): (lbl: string)
    ensures |lbl| == |name|
    ensures ' ' !in name ==> lbl == name
    ensures ' ' in name ==>
      var head := BeforeFirst(name, ' ');
      lbl == head + "\n" + name[|head| + 1..]
  {
    ReplaceFirst(name, ' ', '\n')
  }

  /** The pie legend's formatter `value.replace('\n', ' ')`. */
  function LegendText(text: string): (shown: string)
    ensures |shown| == |text|
    ensures '\n' !in text ==> shown == text
    ensures '\n' in text ==>
      var head := BeforeFirst(text, '\n');
      shown == head + " " + text[|head| + 1..]
  {
    ReplaceFirst(text, '\n', ' ')
  }

  /** For a name without line breaks the legend shows the name the label came from. */
  lemma LegendRestoresName(name: string)
    requires '\n' !in name
    ensures LegendText(ChartLabel(name)) == name
  {
    if ' ' in name {
      var head := BeforeFirst(name, ' ');
      var tail := name[|head| + 1..];
      assert name == head + " " + tail;
      assert '\n' !in head by {
        assert forall k :: 0 <= k < |head| ==> head[k] == name[k];
      }
      BeforeFirstOfJoin(head, tail, '\n');
      assert (head + "\n" + tail)[|head| + 1..] == tail;
    }
  }

  // ---------------------------------------------------------------------------
  // bar / area / pie data
  // ---------------------------------------------------------------------------

  datatype CategoryChartEntry = CategoryChartEntry(name: string, total: nat, resolved: nat, pending: int, resolutionRate: string)
  datatype DepartmentChartEntry = DepartmentChartEntry(name: string, assignedCount: nat, resolved: nat, pending: int, resolutionRate: string)
  datatype PieSlice = PieSlice(name: string, value: nat, color: string)

  /** `(resolved / size * 100).toFixed(1)`, or '0' for an empty group. */
  function RateText(resolved: nat, size: nat): string {
    if size > 0 then ToFixed((resolved as real / size as real) * 100.0, 1) else "0"
  }

  predicate CategoryHasReports(c: CategoryStat) { c.count > 0 }
  predicate DepartmentHasReports(d: DepartmentStat) { d.assignedCount > 0 }

  function CategoryEntry(c: CategoryStat): CategoryChartEntry {
    CategoryChartEntry(ChartLabel(c.name), c.count, c.resolved, c.count - c.resolved, RateText(c.resolved, c.count))
  }

  function DepartmentEntry(d: DepartmentStat): DepartmentChartEntry {
    DepartmentChartEntry(ChartLabel(d.name), d.assignedCount, d.resolved, d.assignedCount - d.resolved,
                         RateText(d.resolved, d.assignedCount))
  }

  /** The categories the charts show: those with at least one report, in their given order. */
  function ShownCategories(stats: seq<CategoryStat>): (shown: seq<CategoryStat>)
    ensures IsSubsequence(shown, stats)
    ensures forall c :: c in shown ==> c in stats && c.count > 0
    ensures forall c :: c in stats && c.count > 0 ==> c in shown
  {
    Filter(stats, CategoryHasReports)
  }

  /** The departments the charts show: those with at least one assigned report, in their given order. */
  function ShownDepartments(stats: seq<DepartmentStat>): (shown: seq<DepartmentStat>)
    ensures IsSubsequence(shown, stats)
    ensures forall d :: d in shown ==> d in stats && d.assignedCount > 0
    ensures forall d :: d in stats && d.assignedCount > 0 ==> d in shown
  {
    Filter(stats, DepartmentHasReports)
  }

  /** `categoryChartData`: one bar per shown category, pending being what is not resolved. */
  function CategoryChartData(stats: seq<CategoryStat>): (data: seq<CategoryChartEntry>)
    ensures |data| == |ShownCategories(stats)|
    ensures forall i :: 0 <= i < |data| ==>
      var c := ShownCategories(stats)[i];
      && data[i].name == ChartLabel(c.name)
      && data[i].total == c.count > 0
      && data[i].resolved == c.resolved
      && data[i].pending == data[i].total - data[i].resolved
  {
    var shown := ShownCategories(stats);
    seq(|shown|, i requires 0 <= i < |shown| => CategoryEntry(shown[i]))
  }

  /** `departmentChartData`: one point per shown department, pending being what is not resolved. */
  function DepartmentChartData(stats: seq<DepartmentStat>): (data: seq<DepartmentChartEntry>)
    ensures |data| == |ShownDepartments(stats)|
    ensures forall i :: 0 <= i < |data| ==>
      var d := ShownDepartments(stats)[i];
      && data[i].name == ChartLabel(d.name)
      && data[i].assignedCount == d.assignedCount > 0
      && data[i].resolved == d.resolved
      && data[i].pending == data[i].assignedCount - data[i].resolved
  {
    var shown := ShownDepartments(stats);
    seq(|shown|, i requires 0 <= i < |shown| => DepartmentEntry(shown[i]))
  }

  /** `pieData`: a slice per bar, coloured by its position, the palette repeating every six. */
  function PieData(data: seq<CategoryChartEntry>): (slices: seq<PieSlice>)
    ensures |slices| == |data|
    ensures forall i :: 0 <= i < |slices| ==>
      slices[i].name == data[i].name && slices[i].value == data[i].total && slices[i].color == ChartColors[i % 6]
  {
    seq(|data|, i requires 0 <= i < |data| => PieSlice(data[i].name, data[i].total, ChartColors[i % |ChartColors|]))
  }

  function SumSliceValues(slices: seq<PieSlice>): nat {
    if slices == [] then 0 else slices[0].value + SumSliceValues(slices[1..])
  }

  function SumEntryTotals(data: seq<CategoryChartEntry>): nat {
    if data == [] then 0 else data[0].total + SumEntryTotals(data[1..])
  }

  lemma {:induction false} ShownCategoriesKeepTotal(stats: seq<CategoryStat>)
    ensures SumCategoryCounts(ShownCategories(stats)) == SumCategoryCounts(stats)
  {
    if stats != [] {
      ShownCategoriesKeepTotal(stats[1..]);
    }
  }

  lemma {:induction false} SlicesAddUpToTotals(slices: seq<PieSlice>, data: seq<CategoryChartEntry>)
    requires |slices| == |data| && forall k :: 0 <= k < |data| ==> slices[k].value == data[k].total
    ensures SumSliceValues(slices) == SumEntryTotals(data)
  {
    if data != [] {
      SlicesAddUpToTotals(slices[1..], data[1..]);
    }
  }

  lemma {:induction false} TotalsAddUpToCounts(data: seq<CategoryChartEntry>, shown: seq<CategoryStat>)
    requires |data| == |shown| && forall k :: 0 <= k < |data| ==> data[k].total == shown[k].count
    ensures SumEntryTotals(data) == SumCategoryCounts(shown)
  {
    if data != [] {
      TotalsAddUpToCounts(data[1..], shown[1..]);
    }
  }

  /** The pie covers every report of a configured category: the dropped groups were empty. */
  lemma PieCoversAllCounts(stats: seq<CategoryStat>)
    ensures SumSliceValues(PieData(CategoryChartData(stats))) == SumCategoryCounts(stats)
  {
    var data := CategoryChartData(stats);
    SlicesAddUpToTotals(PieData(data), data);
    TotalsAddUpToCounts(data, ShownCategories(stats));
    ShownCategoriesKeepTotal(stats);
  }

  // ---------------------------------------------------------------------------
  // the breakdown lists under the charts
  // ---------------------------------------------------------------------------

  /** The badge variant of a breakdown row. */
  datatype Badge = ResolvedBadge | ProgressBadge | SubmittedBadge

  /** `rate >= 80 ? "resolved" : rate >= 50 ? "progress" : "submitted"` */
  function BadgeFor(rate: int): (b: Badge)
    ensures b == ResolvedBadge <==> 80 <= rate
    ensures b == ProgressBadge <==> 50 <= rate < 80
    ensures b == SubmittedBadge <==> rate < 50
  {
    if rate >= 80 then ResolvedBadge else if rate >= 50 then ProgressBadge else SubmittedBadge
  }

  datatype BreakdownRow<T> = BreakdownRow(entry: T, rate: nat, badge: Badge)

  function CategorySize(c: CategoryStat): int { c.count }
  function DepartmentSize(d: DepartmentStat): int { d.assignedCount }

  function Entries<T>(rows: seq<BreakdownRow<T>>): (entries: seq<T>)
    ensures |entries| == |rows| && forall i :: 0 <= i < |rows| ==> entries[i] == rows[i].entry
  {
    if rows == [] then [] else [rows[0].entry] + Entries(rows[1..])
  }

  function CategoryRow(c: CategoryStat): BreakdownRow<CategoryStat> {
    var rate := RoundedPercent(c.resolved, c.count);
    BreakdownRow(c, rate, BadgeFor(rate))
  }

  function DepartmentRow(d: DepartmentStat): BreakdownRow<DepartmentStat> {
    var rate := RoundedPercent(d.resolved, d.assignedCount);
    BreakdownRow(d, rate, BadgeFor(rate))
  }

  function CategoryRows(cs: seq<CategoryStat>): (rows: seq<BreakdownRow<CategoryStat>>)
    ensures Entries(rows) == cs
    ensures forall i :: 0 <= i < |rows| ==> rows[i] == CategoryRow(cs[i])
  {
    if cs == [] then [] else [CategoryRow(cs[0])] + CategoryRows(cs[1..])
  }

  function DepartmentRows(ds: seq<DepartmentStat>): (rows: seq<BreakdownRow<DepartmentStat>>)
    ensures Entries(rows) == ds
    ensures forall i :: 0 <= i < |rows| ==> rows[i] == DepartmentRow(ds[i])
  {
    if ds == [] then [] else [DepartmentRow(ds[0])] + DepartmentRows(ds[1..])
  }

  /**
   * The category list beside the bar chart: the shown categories, largest
   * count first, each with its rounded rate and the badge for that rate.
   */
  function CategoryBreakdown(stats: seq<CategoryStat>): (rows: seq<BreakdownRow<CategoryStat>>)
    ensures multiset(Entries(rows)) == multiset(ShownCategories(stats))
    ensures forall i, j :: 0 <= i < j < |rows| ==> rows[i].entry.count >= rows[j].entry.count
    ensures forall i :: 0 <= i < |rows| ==>
      && rows[i].entry.count > 0
      && rows[i].rate == RoundedPercent(rows[i].entry.resolved, rows[i].entry.count)
      && rows[i].badge == BadgeFor(rows[i].rate)
  {
    var shown := ShownCategories(stats);
    var sorted := SortDesc(shown, CategorySize);
    SortDescKeepsMembers(shown, CategorySize);
    CategoryRows(sorted)
  }

  /** The department list beside the area chart: the shown departments, most assigned first. */
  function DepartmentBreakdown(stats: seq<DepartmentStat>): (rows: seq<BreakdownRow<DepartmentStat>>)
    ensures multiset(Entries(rows)) == multiset(ShownDepartments(stats))
    ensures forall i, j :: 0 <= i < j < |rows| ==> rows[i].entry.assignedCount >= rows[j].entry.assignedCount
    ensures forall i :: 0 <= i < |rows| ==>
      && rows[i].entry.assignedCount > 0
      && rows[i].rate == RoundedPercent(rows[i].entry.resolved, rows[i].entry.assignedCount)
      && rows[i].badge == BadgeFor(rows[i].rate)
  {
    var shown := ShownDepartments(stats);
    var sorted := SortDesc(shown, DepartmentSize);
    SortDescKeepsMembers(shown, DepartmentSize);
    DepartmentRows(sorted)
  }

  // ---------------------------------------------------------------------------
  // Quick Stats
  // ---------------------------------------------------------------------------

  datatype QuickStats = QuickStats(totalReports: nat, resolutionRate: nat, pendingIssues: int)

  function SumResolved(stats: seq<CategoryStat>): nat {
    if stats == [] then 0 else stats[0].resolved + SumResolved(stats[1..])
  }

  /** `reduce((sum, cat) => sum + (cat.count - cat.resolved), 0)` */
  function SumPending(stats: seq<CategoryStat>): int {
    if stats == [] then 0 else (stats[0].count - stats[0].resolved) + SumPending(stats[1..])
  }

  lemma {:induction false} PendingIsCountMinusResolved(stats: seq<CategoryStat>)
    ensures SumPending(stats) == SumCategoryCounts(stats) - SumResolved(stats)
  {
    if stats != [] {
      PendingIsCountMinusResolved(stats[1..]);
    }
  }

  predicate ResolvedWithinCounts(stats: seq<CategoryStat>) {
    forall c :: c in stats ==> c.resolved <= c.count
  }

  lemma {:induction false} SumResolvedWithinTotal(stats: seq<CategoryStat>)
    ensures ResolvedWithinCounts(stats) ==> SumResolved(stats) <= SumCategoryCounts(stats)
  {
    if stats != [] {
      assert stats[0] in stats;
      assert forall c :: c in stats[1..] ==> c in stats;
      SumResolvedWithinTotal(stats[1..]);
    }
  }

  /**
   * The Quick Stats card: total and pending from the category roll-up, and the
   * rate `Math.round(resolved / Math.max(total, 1) * 100)`.
   */
  function GetQuickStats(stats: seq<CategoryStat>): (q: QuickStats)
    ensures q.pendingIssues == q.totalReports - SumResolved(stats)
    ensures ResolvedWithinCounts(stats) ==> q.resolutionRate <= 100 && 0 <= q.pendingIssues
    ensures ResolvedWithinCounts(stats) && q.totalReports == 0 ==> q.resolutionRate == 0
    ensures q.totalReports == SumCategoryCounts(stats)
    ensures q.resolutionRate == RoundedPercent(SumResolved(stats), if q.totalReports > 1 then q.totalReports else 1)
  {
    PendingIsCountMinusResolved(stats);
    SumResolvedWithinTotal(stats);
    var total := SumCategoryCounts(stats);
    QuickStats(total, RoundedPercent(SumResolved(stats), if total > 1 then total else 1), SumPending(stats))
  }

  lemma {:induction false} CategoryStatsResolvedWithin(reports: seq<Reports.Report>, categories: seq<string>)
    ensures ResolvedWithinCounts(CategoryStats(reports, categories))
  {
    var stats := CategoryStats(reports, categories);
    forall c | c in stats ensures c.resolved <= c.count {
      var i :| 0 <= i < |stats| && stats[i] == c;
    }
  }

  /**
   * Fed from the roll-up with distinct category names, Quick Stats never counts
   * more reports than there are, its rate is a percentage and nothing is
   * pending below zero.
   */
  lemma QuickStatsOfRollUp(reports: seq<Reports.Report>, categories: seq<string>)
    requires Distinct(categories)
    ensures var q := GetQuickStats(CategoryStats(reports, categories));
      && q.totalReports <= |reports|
      && q.resolutionRate <= 100
      && 0 <= q.pendingIssues <= q.totalReports
  {
    CategoryCountsWithinTotal(reports, categories);
    CategoryStatsResolvedWithin(reports, categories);
  }
}

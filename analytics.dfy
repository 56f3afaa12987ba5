/**
 * The admin analytics roll-up: status overview with a whole-percent
 * resolution rate, and counts by category, department and priority.
 * The report, category and department lists are parameters.
 */
module AdminAnalytics {
  import opened Wrappers
  import opened Reports
  import opened Seqs

  /**
   * `total > 0 ? Math.round((part / total) * 100) : 0`, on exact rationals:
   * the whole percent nearest to part/total, halves rounded up.
   */
  function RoundedPercent(part: nat, total: nat): (rate: nat)
    ensures total == 0 ==> rate == 0
    ensures total > 0 ==> 2 * total * rate <= 200 * part + total < 2 * total * (rate + 1)
    ensures part <= total ==> rate <= 100
  {
    if total > 0 then
      var rate := (200 * part + total) / (2 * total);
      RoundedPercentBounds(part, total, rate);
      rate
    else 0
  }

  lemma RoundedPercentBounds(part: nat, total: nat, rate: nat)
    requires total > 0 && rate == (200 * part + total) / (2 * total)
    ensures 2 * total * rate <= 200 * part + total < 2 * total * (rate + 1)
    ensures part <= total ==> rate <= 100
  {
    var a := 200 * part + total;
    var d := 2 * total;
    assert a == d * rate + a % d && 0 <= a % d < d;
    assert d * (rate + 1) == d * rate + d;
    if part <= total {
      assert d * rate < d * 101;
      FactorBelow(rate, 101, d);
    }
  }

  lemma FactorBelow(x: nat, y: nat, d: nat)
    requires d > 0 && d * x < d * y
    ensures x < y
  {
  }

  lemma TwoOfThreeIsSixtySevenPercent()
    ensures RoundedPercent(2, 3) == 67
  {
  }

  // ---------------------------------------------------------------------------
  // counting by a key
  // ---------------------------------------------------------------------------

  function CategoryOf(r: Report): string { r.category }
  function DepartmentOf(r: Report): Option<string> { r.assignedDepartment }
  function PriorityOf(r: Report): string { r.priority }

  function KeyIs<K(==)>(key: Report -> K, k: K): Report -> bool {
    r => key(r) == k
  }

  function KeyIsResolved<K(==)>(key: Report -> K, k: K): Report -> bool {
    r => key(r) == k && IsResolved(r)
  }

  /** `reports.filter(r => key(r) === k).length` */
  function CountWhere<K(==)>(reports: seq<Report>, key: Report -> K, k: K): nat {
    |Filter(reports, KeyIs(key, k))|
  }

  /** `reports.filter(r => key(r) === k && r.status === "resolved").length` */
  function CountResolvedWhere<K(==)>(reports: seq<Report>, key: Report -> K, k: K): nat {
    |Filter(reports, KeyIsResolved(key, k))|
  }

  lemma {:induction false} ResolvedWithinCount<K>(reports: seq<Report>, key: Report -> K, k: K)
    ensures CountResolvedWhere(reports, key, k) <= CountWhere(reports, key, k)
  {
    if reports != [] {
      ResolvedWithinCount(reports[1..], key, k);
    }
  }

  /** How many reports have a key in `ks`. */
  function CountIn<K(==)>(reports: seq<Report>, key: Report -> K, ks: seq<K>): (n: nat)
    ensures n <= |reports|
  {
    if reports == [] then 0
    else (if key(reports[0]) in ks then 1 else 0) + CountIn(reports[1..], key, ks)
  }

  /** The per-key counts of `ks`, added up. */
  function SumCounts<K(==)>(reports: seq<Report>, key: Report -> K, ks: seq<K>): nat {
    if ks == [] then 0 else CountWhere(reports, key, ks[0]) + SumCounts(reports, key, ks[1..])
  }

  predicate Distinct<K(==)>(ks: seq<K>) {
    forall i, j :: 0 <= i < j < |ks| ==> ks[i] != ks[j]
  }

  function Occurrences<K(==)>(ks: seq<K>, k: K): nat {
    if ks == [] then 0 else (if ks[0] == k then 1 else 0) + Occurrences(ks[1..], k)
  }

  lemma {:induction false} OccurrencesOfDistinct<K>(ks: seq<K>, k: K)
    requires Distinct(ks)
    ensures Occurrences(ks, k) == if k in ks then 1 else 0
  {
    if ks != [] {
      OccurrencesOfDistinct(ks[1..], k);
      assert k in ks <==> ks[0] == k || k in ks[1..];
    }
  }

  lemma {:induction false} SumCountsFirstReport<K>(reports: seq<Report>, key: Report -> K, ks: seq<K>)
    requires reports != []
    ensures SumCounts(reports, key, ks) == Occurrences(ks, key(reports[0])) + SumCounts(reports[1..], key, ks)
  {
    if ks != [] {
      SumCountsFirstReport(reports, key, ks[1..]);
    }
  }

  /** With distinct keys, no report is counted twice: the per-key counts add up to CountIn. */
  lemma {:induction false} SumCountsOfDistinctKeys<K>(reports: seq<Report>, key: Report -> K, ks: seq<K>)
    requires Distinct(ks)
    ensures SumCounts(reports, key, ks) == CountIn(reports, key, ks)
  {
    if reports == [] {
      SumCountsOfEmpty(key, ks);
    } else {
      SumCountsFirstReport(reports, key, ks);
      OccurrencesOfDistinct(ks, key(reports[0]));
      SumCountsOfDistinctKeys(reports[1..], key, ks);
    }
  }

  lemma {:induction false} SumCountsOfEmpty<K>(key: Report -> K, ks: seq<K>)
    ensures SumCounts([], key, ks) == 0
  {
    if ks != [] {
      SumCountsOfEmpty(key, ks[1..]);
    }
  }

  // ---------------------------------------------------------------------------
  // the roll-up
  // ---------------------------------------------------------------------------

  datatype Overview = Overview(total: nat, resolved: nat, inProgress: nat, submitted: nat, resolutionRate: nat)
  datatype CategoryStat = CategoryStat(name: string, count: nat, resolved: nat)
  datatype DepartmentStat = DepartmentStat(name: string, assignedCount: nat, resolved: nat)
  datatype PriorityStat = PriorityStat(level: string, count: nat)
  datatype Analytics = Analytics(
    overview: Overview,
    categories: seq<CategoryStat>,
    departments: seq<DepartmentStat>,
    priorities: seq<PriorityStat>)

  function GetOverview(reports: seq<Report>): (o: Overview)
    ensures o.total == |reports|
    ensures o.resolved <= o.total && o.inProgress <= o.total && o.submitted <= o.total
    ensures o.resolutionRate <= 100 && (o.total == 0 ==> o.resolutionRate == 0)
    ensures o.resolved == |Filter(reports, IsResolved)|
    ensures o.inProgress == |Filter(reports, IsInProgress)|
    ensures o.submitted == |Filter(reports, IsSubmitted)|
    ensures o.resolutionRate == RoundedPercent(o.resolved, o.total)
  {
    var total := |reports|;
    var resolved := |Filter(reports, IsResolved)|;
    Overview(total, resolved, |Filter(reports, IsInProgress)|, |Filter(reports, IsSubmitted)|,
             RoundedPercent(resolved, total))
  }

  /** With every status known, resolved, in progress and submitted split the total. */
  lemma OverviewPartition(reports: seq<Report>)
    requires AllStatusesKnown(reports)
    ensures var o := GetOverview(reports);
      o.resolved + o.inProgress + o.submitted == o.total
  {
    FilterPartition3(reports, IsResolved, IsInProgress, IsSubmitted);
  }

  function CategoryStatFor(reports: seq<Report>, category: string): (stat: CategoryStat)
    ensures stat.name == category && stat.resolved <= stat.count
    ensures stat.count == CountWhere(reports, CategoryOf, category)
    ensures stat.resolved == CountResolvedWhere(reports, CategoryOf, category)
  {
    ResolvedWithinCount(reports, CategoryOf, category);
    CategoryStat(category, CountWhere(reports, CategoryOf, category), CountResolvedWhere(reports, CategoryOf, category))
  }

  /** `categories.map(...)`: one entry per configured category, in the configured order. */
  function CategoryStats(reports: seq<Report>, categories: seq<string>): (stats: seq<CategoryStat>)
    ensures |stats| == |categories|
    ensures forall i :: 0 <= i < |stats| ==> stats[i].name == categories[i] && stats[i].resolved <= stats[i].count
    ensures forall i :: 0 <= i < |stats| ==> stats[i].count == CountWhere(reports, CategoryOf, categories[i])
    ensures forall i :: 0 <= i < |stats| ==> stats[i].resolved == CountResolvedWhere(reports, CategoryOf, categories[i])
  {
    if categories == [] then []
    else [CategoryStatFor(reports, categories[0])] + CategoryStats(reports, categories[1..])
  }

  function DepartmentStatFor(reports: seq<Report>, department: string): (stat: DepartmentStat)
    ensures stat.name == department && stat.resolved <= stat.assignedCount
    ensures stat.assignedCount == CountWhere(reports, DepartmentOf, Some(department))
    ensures stat.resolved == CountResolvedWhere(reports, DepartmentOf, Some(department))
  {
    ResolvedWithinCount(reports, DepartmentOf, Some(department));
    DepartmentStat(department,
      CountWhere(reports, DepartmentOf, Some(department)),
      CountResolvedWhere(reports, DepartmentOf, Some(department)))
  }

  /** `departments.map(...)`: one entry per configured department, in the configured order. */
  function DepartmentStats(reports: seq<Report>, departments: seq<string>): (stats: seq<DepartmentStat>)
    ensures |stats| == |departments|
    ensures forall i :: 0 <= i < |stats| ==> stats[i].name == departments[i] && stats[i].resolved <= stats[i].assignedCount
    ensures forall i :: 0 <= i < |stats| ==> stats[i].assignedCount == CountWhere(reports, DepartmentOf, Some(departments[i]))
    ensures forall i :: 0 <= i < |stats| ==> stats[i].resolved == CountResolvedWhere(reports, DepartmentOf, Some(departments[i]))
  {
    if departments == [] then []
    else [DepartmentStatFor(reports, departments[0])] + DepartmentStats(reports, departments[1..])
  }

  /** The priority distribution, always High, Medium, Low. */
  function PriorityStats(reports: seq<Report>): (stats: seq<PriorityStat>)
    ensures |stats| == 3 && stats[0].level == "High" && stats[1].level == "Medium" && stats[2].level == "Low"
    ensures stats[0].count == CountWhere(reports, PriorityOf, "high")
    ensures stats[1].count == CountWhere(reports, PriorityOf, "medium")
    ensures stats[2].count == CountWhere(reports, PriorityOf, "low")
  {
    [ PriorityStat("High", CountWhere(reports, PriorityOf, "high")),
      PriorityStat("Medium", CountWhere(reports, PriorityOf, "medium")),
      PriorityStat("Low", CountWhere(reports, PriorityOf, "low")) ]
  }

  /** With every priority known, the three priority counts split the total. */
  lemma PrioritiesPartition(reports: seq<Report>)
    requires AllPrioritiesKnown(reports)
    ensures var p := PriorityStats(reports);
      p[0].count + p[1].count + p[2].count == |reports|
  {
    FilterPartition3(reports, KeyIs(PriorityOf, "high"), KeyIs(PriorityOf, "medium"), KeyIs(PriorityOf, "low"));
  }

  function SumCategoryCounts(stats: seq<CategoryStat>): nat {
    if stats == [] then 0 else stats[0].count + SumCategoryCounts(stats[1..])
  }

  function SumAssigned(stats: seq<DepartmentStat>): nat {
    if stats == [] then 0 else stats[0].assignedCount + SumAssigned(stats[1..])
  }

  function SomeKeys(names: seq<string>): (ks: seq<Option<string>>)
    ensures |ks| == |names| && forall i :: 0 <= i < |ks| ==> ks[i] == Some(names[i])
  {
    if names == [] then [] else [Some(names[0])] + SomeKeys(names[1..])
  }

  lemma {:induction false} CategoryCountsAreKeyCounts(reports: seq<Report>, categories: seq<string>)
    ensures SumCategoryCounts(CategoryStats(reports, categories)) == SumCounts(reports, CategoryOf, categories)
  {
    if categories != [] {
      CategoryCountsAreKeyCounts(reports, categories[1..]);
    }
  }

  lemma {:induction false} AssignedCountsAreKeyCounts(reports: seq<Report>, departments: seq<string>)
    ensures SumAssigned(DepartmentStats(reports, departments)) == SumCounts(reports, DepartmentOf, SomeKeys(departments))
  {
    if departments != [] {
      AssignedCountsAreKeyCounts(reports, departments[1..]);
      assert SomeKeys(departments)[1..] == SomeKeys(departments[1..]);
    }
  }

  /**
   * With distinct category names, the category counts add up to the number of
   * reports whose category is configured, so never to more than the total.
   */
  lemma CategoryCountsWithinTotal(reports: seq<Report>, categories: seq<string>)
    requires Distinct(categories)
    ensures SumCategoryCounts(CategoryStats(reports, categories)) == CountIn(reports, CategoryOf, categories)
    ensures SumCategoryCounts(CategoryStats(reports, categories)) <= |reports|
  {
    CategoryCountsAreKeyCounts(reports, categories);
    SumCountsOfDistinctKeys(reports, CategoryOf, categories);
  }

  /**
   * With distinct department names, every report is counted in at most one
   * department entry; unassigned reports and unknown departments in none.
   */
  lemma AssignedWithinTotal(reports: seq<Report>, departments: seq<string>)
    requires Distinct(departments)
    ensures SumAssigned(DepartmentStats(reports, departments)) == CountIn(reports, DepartmentOf, SomeKeys(departments))
    ensures SumAssigned(DepartmentStats(reports, departments)) <= |reports|
  {
    AssignedCountsAreKeyCounts(reports, departments);
    SumCountsOfDistinctKeys(reports, DepartmentOf, SomeKeys(departments));
  }

  /** Both bounds at once, each under its own distinctness assumption. */
  lemma RollUpWithinTotal(reports: seq<Report>, categories: seq<string>, departments: seq<string>)
    ensures Distinct(categories) ==> SumCategoryCounts(CategoryStats(reports, categories)) <= |reports|
    ensures Distinct(departments) ==> SumAssigned(DepartmentStats(reports, departments)) <= |reports|
  {
    if Distinct(categories) {
      CategoryCountsWithinTotal(reports, categories);
    }
    if Distinct(departments) {
      AssignedWithinTotal(reports, departments);
    }
  }

  /**
   * `getAnalytics`: the overview, one entry per configured category and
   * department, and the three priority levels; with distinct names, the
   * category counts and the department assignments never exceed the total.
   */
  function GetAnalytics(reports: seq<Report>, categories: seq<string>, departments: seq<string>): (a: Analytics)
    ensures a.overview.total == |reports|
    ensures |a.categories| == |categories| && |a.departments| == |departments| && |a.priorities| == 3
    ensures Distinct(categories) ==> SumCategoryCounts(a.categories) <= a.overview.total
    ensures Distinct(departments) ==> SumAssigned(a.departments) <= a.overview.total
  {
    RollUpWithinTotal(reports, categories, departments);
    Analytics(GetOverview(reports), CategoryStats(reports, categories),
              DepartmentStats(reports, departments), PriorityStats(reports))
  }
}

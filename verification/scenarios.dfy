/**
 Worked examples on a six-launch table: four launches from site "A" (three
 successes, one failure) and two from site "B" (one of each).
 */
module Scenarios {
  import opened Seqs
  import opened Launches
  import opened Selection
  import opened Pie
  import opened Scatter

  function SixLaunches(): Dataset {
    [ Record("A", 1000, 1, "v1.0"), Record("A", 3000, 1, "FT"), Record("A", 5000, 0, "B4"),
      Record("A", 7000, 1, "B5"), Record("B", 2500, 1, "FT"), Record("B", 4500, 0, "v1.1") ]
  }

  /** All sites: six rows, four successes and two failures. */
  lemma PieAllSitesOnSixLaunches()
    ensures |SelectSite(SixLaunches(), AllSites)| == 6
    ensures GetPieChart(SixLaunches(), AllSites).counts == map[SuccessLabel := 4, FailLabel := 2]
  {
    var ds := SixLaunches();
    assert CountClass(ds[5..], 1) == 0 && CountClass(ds[5..], 0) == 1;
    assert CountClass(ds[4..], 1) == 1 && CountClass(ds[4..], 0) == 1;
    assert CountClass(ds[3..], 1) == 2 && CountClass(ds[3..], 0) == 1;
    assert CountClass(ds[2..], 1) == 2 && CountClass(ds[2..], 0) == 2;
    assert CountClass(ds[1..], 1) == 3 && CountClass(ds[1..], 0) == 2;
    SameCounts(GetPieChart(ds, AllSites).counts, 4, 2);
  }

  /** Among the last four rows, site "B" keeps the last two. */
  lemma SiteBRowsFromThird()
    ensures Filter(SixLaunches()[2..], AtSite("B")) == SixLaunches()[4..]
  {
    var ds := SixLaunches();
    var keep := AtSite("B");
    assert ds[5..][1..] == ds[6..];
    assert Filter(ds[5..], keep) == ds[5..];
    assert ds[4..][1..] == ds[5..];
    assert Filter(ds[4..], keep) == ds[4..];
    assert ds[3..][1..] == ds[4..];
    assert Filter(ds[3..], keep) == ds[4..];
    assert ds[2..][1..] == ds[3..];
  }

  /** Site "B" selects the last two rows. */
  lemma SiteBRows()
    ensures SelectSite(SixLaunches(), "B") == SixLaunches()[4..]
  {
    var ds := SixLaunches();
    var keep := AtSite("B");
    SiteBRowsFromThird();
    assert ds[1..][1..] == ds[2..];
    assert Filter(ds[1..], keep) == ds[4..];
  }

  /** Site "B": two rows, one success and one failure. */
  lemma PieSiteBOnSixLaunches()
    ensures |SelectSite(SixLaunches(), "B")| == 2
    ensures GetPieChart(SixLaunches(), "B").counts == map[SuccessLabel := 1, FailLabel := 1]
  {
    var ds := SixLaunches();
    var b := SelectSite(ds, "B");
    SiteBRows();
    assert CountClass(b[1..], 1) == 0 && CountClass(b[1..], 0) == 1;
    SameCounts(GetPieChart(ds, "B").counts, 1, 1);
  }

  /** A pie whose two slices are both present is determined by their two counts. */
  lemma SameCounts(p: map<string, nat>, success: nat, fail: nat)
    requires p.Keys <= {SuccessLabel, FailLabel}
    requires success > 0 && fail > 0
    requires Get(p, SuccessLabel) == success && Get(p, FailLabel) == fail
    ensures p == map[SuccessLabel := success, FailLabel := fail]
  {
  }

  /**
   A range [2000, 2000] that no payload hits plots nothing; and counting no
   rows at all, as the pie would for a site with no launches, gives no slice,
   not a zero-count one.
   */
  lemma EmptyRangeOnSixLaunches()
    ensures GetScatterChart(SixLaunches(), AllSites, 2000, 2000).points == []
    ensures PieCounts([]) == map[]
  {
    var ds := SixLaunches();
    assert forall i :: 0 <= i < |ds| ==> ds[i].payload != 2000;
    EmptyRangeSelectsNothing(ds, AllSites, 2000, 2000);
    var p := PieCounts([]);
    assert SuccessLabel !in p && FailLabel !in p;
    assert p.Keys == {};
  }
}

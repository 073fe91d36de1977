/**
 The scatter-chart callback: one point per row that passes the site and the
 payload-range selection, and a title named after the selected site.
 */
module Scatter {
  import opened Seqs
  import opened Launches
  import opened Selection

  /** One plotted point: payload on x, class on y, coloured by booster category. */
  datatype Point = Point(payload: int, cls: ClassValue, booster: string)

  function PointOf(r: Record): Point {
    Point(r.payload, r.cls, r.booster)
  }

  /** The chart title: a fixed one for "ALL", otherwise the site appended to a fixed prefix. */
  function ScatterTitle(site: string): (t: string)
    ensures site == AllSites ==> t == "Launch success for all sites"
    ensures site != AllSites ==> t == "Launch success for " + site
  {
    Title("Launch success for ", site)
  }

  /**
   Two selections get the same scatter title exactly when they are the same
   site, or are "ALL" and a site literally named "all sites".
   */
  lemma ScatterTitleIdentifiesSite(a: string, b: string)
    ensures ScatterTitle(a) == ScatterTitle(b) <==>
            (a == b || (a == AllSites && b == "all sites") || (a == "all sites" && b == AllSites))
  {
    TitleIdentifiesSite("Launch success for ", a, b);
  }

  /** One point per row, in row order. */
  function Plot(rows: Dataset): (ps: seq<Point>)
    ensures |ps| == |rows|
    ensures forall i :: 0 <= i < |rows| ==> ps[i] == PointOf(rows[i])
  {
    seq(|rows|, i requires 0 <= i < |rows| => PointOf(rows[i]))
  }

  /** What the callback hands to the plotting library. */
  datatype ScatterSpec = ScatterSpec(points: seq<Point>, title: string)

  /**
   The scatter-chart callback for dropdown value `site` and slider value
   [low, high].
   */
  function GetScatterChart(ds: Dataset, site: string, low: int, high: int): (spec: ScatterSpec)
    ensures |spec.points| == |SelectScatter(ds, site, low, high)|
    ensures forall i :: 0 <= i < |spec.points| ==> low <= spec.points[i].payload <= high
    ensures low > high ==> spec.points == []
    ensures site == AllSites ==> spec.title == "Launch success for all sites"
    ensures site != AllSites ==> spec.title == "Launch success for " + site
  {
    ScatterSpec(Plot(SelectScatter(ds, site, low, high)), ScatterTitle(site))
  }

  /**
   The points are the selected rows, one each and in table order, and every
   point comes from a row of the table that passes both selections.
   */
  lemma PointsFollowRows(ds: Dataset, site: string, low: int, high: int, i: nat)
    requires i < |GetScatterChart(ds, site, low, high).points|
    ensures GetScatterChart(ds, site, low, high).points[i] == PointOf(SelectScatter(ds, site, low, high)[i])
    ensures exists r :: r in ds && SiteMatches(r, site) && InRange(r, low, high)
                        && GetScatterChart(ds, site, low, high).points[i] == PointOf(r)
  {
    var sel := SelectScatter(ds, site, low, high);
    assert sel[i] in sel;
  }

  /** Every row of the table that passes both selections is plotted. */
  lemma EveryKeptRowIsPlotted(ds: Dataset, site: string, low: int, high: int, r: Record)
    requires r in ds && SiteMatches(r, site) && InRange(r, low, high)
    ensures PointOf(r) in GetScatterChart(ds, site, low, high).points
  {
  }
}

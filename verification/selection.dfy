/**
 Row selection done by the two callbacks: the site selection shared by the
 pie and scatter callbacks, and the payload-range selection the scatter
 callback applies after it.
 */
module Selection {
  import opened Seqs
  import opened Launches

  /**
   The rows of `ds` the callbacks keep for the dropdown value `site`: the whole
   table for "ALL", otherwise the rows whose site equals `site` exactly.
   */
  function SelectSite(ds: Dataset, site: string): (sel: Dataset)
    ensures site == AllSites ==> sel == ds
    ensures IsSubsequence(sel, ds)
    ensures forall r :: multiset(sel)[r] == if SiteMatches(r, site) then multiset(ds)[r] else 0
    ensures forall r :: r in sel <==> r in ds && SiteMatches(r, site)
  {
    if site == AllSites then
      SubsequenceReflexive(ds);
      ds
    else
      Filter(ds, AtSite(site))
  }

  /** The row test of a single-site selection: the row's site equals `site` exactly. */
  function AtSite(site: string): Record -> bool {
    (r: Record) => r.site == site
  }

  /** Both branches of the site selection are one filter by SiteMatches. */
  lemma SelectSiteIsFilter(ds: Dataset, site: string)
    ensures SelectSite(ds, site) == Filter(ds, (r: Record) => SiteMatches(r, site))
  {
    FilterUnique(ds, (r: Record) => SiteMatches(r, site), SelectSite(ds, site));
  }

  /** A site that no row carries selects nothing; it is not an error. */
  lemma UnknownSiteSelectsNothing(ds: Dataset, site: string)
    requires site != AllSites
    requires forall i :: 0 <= i < |ds| ==> ds[i].site != site
    ensures SelectSite(ds, site) == []
  {
    FilterKeepNone(ds, AtSite(site));
  }

  /** A payload range that no row's payload falls in selects nothing. */
  lemma EmptyRangeSelectsNothing(ds: Dataset, site: string, low: int, high: int)
    requires forall i :: 0 <= i < |ds| ==> !(low <= ds[i].payload <= high)
    ensures SelectScatter(ds, site, low, high) == []
  {
    SelectScatterIsConjunction(ds, site, low, high);
    FilterKeepNone(ds, (r: Record) => SiteMatches(r, site) && InRange(r, low, high));
  }

  /**
   The rows plotted by the scatter callback: the site selection, then the rows
   whose payload lies in [low, high]. The bounds are used as given, never
   clamped or swapped.
   */
  function SelectScatter(ds: Dataset, site: string, low: int, high: int): (sel: Dataset)
    ensures IsSubsequence(sel, ds)
    ensures forall r :: multiset(sel)[r] ==
                        (if SiteMatches(r, site) && InRange(r, low, high) then multiset(ds)[r] else 0)
    ensures forall r :: r in sel <==> r in ds && SiteMatches(r, site) && InRange(r, low, high)
    ensures forall i :: 0 <= i < |sel| ==> low <= sel[i].payload <= high
    ensures low > high ==> sel == []
  {
    var bySite := SelectSite(ds, site);
    var sel := Filter(bySite, (r: Record) => InRange(r, low, high));
    SubsequenceTransitive(sel, bySite, ds);
    sel
  }

  /**
   The two-stage selection of the scatter callback equals a single pass that
   keeps a row iff it passes both the site and the payload predicate.
   */
  lemma SelectScatterIsConjunction(ds: Dataset, site: string, low: int, high: int)
    ensures SelectScatter(ds, site, low, high)
         == Filter(ds, (r: Record) => SiteMatches(r, site) && InRange(r, low, high))
  {
    FilterUnique(ds, (r: Record) => SiteMatches(r, site) && InRange(r, low, high),
                 SelectScatter(ds, site, low, high));
  }

  /** With "ALL" selected and a range covering every payload, the scatter keeps the whole table. */
  lemma {:induction false} FullRangeKeepsAll(ds: Dataset, low: int, high: int)
    requires forall i :: 0 <= i < |ds| ==> low <= ds[i].payload <= high
    ensures SelectScatter(ds, AllSites, low, high) == ds
  {
    FilterKeepAll(ds, (r: Record) => InRange(r, low, high));
  }
}

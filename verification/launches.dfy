/**
 The launch table the dashboard reads once at start-up, and the two row
 predicates its callbacks filter by: the launch site chosen in the dropdown
 (with "ALL" meaning every site) and the payload range chosen on the slider.
 */
module Launches {
  import opened Seqs

  /** The `class` column: 1 for a successful launch, 0 for a failed one. */
  type ClassValue = c: int | c == 0 || c == 1

  /** One row of the table; payloads are whole kilograms. */
  datatype Record = Record(site: string, payload: int, cls: ClassValue, booster: string)

  type Dataset = seq<Record>

  /** The dropdown value that stands for every launch site. */
  const AllSites: string := "ALL"

  /** A row passes the site selection when every site is selected or its site is the selected one. */
  predicate SiteMatches(r: Record, site: string) {
    site == AllSites || r.site == site
  }

  /** A row passes the payload selection when its payload lies in [low, high], both ends included. */
  predicate InRange(r: Record, low: int, high: int) {
    low <= r.payload <= high
  }

  /**
   A chart title: the fixed caption prefix followed by "all sites" for "ALL",
   or by the selected site otherwise.
   */
  function Title(prefix: string, site: string): (t: string)
    ensures |t| >= |prefix|
    ensures t[..|prefix|] == prefix
    ensures t[|prefix|..] == if site == AllSites then "all sites" else site
  {
    if site == AllSites then prefix + "all sites" else prefix + site
  }

  /**
   Two selections get the same title under one prefix exactly when they are
   the same site, or are "ALL" and a site literally named "all sites".
   */
  lemma TitleIdentifiesSite(prefix: string, a: string, b: string)
    ensures Title(prefix, a) == Title(prefix, b) <==>
            (a == b || (a == AllSites && b == "all sites") || (a == "all sites" && b == AllSites))
  {
    var da := if a == AllSites then "all sites" else a;
    var db := if b == AllSites then "all sites" else b;
    if Title(prefix, a) == Title(prefix, b) {
      AppendCancel(prefix, da, db);
    }
  }
}

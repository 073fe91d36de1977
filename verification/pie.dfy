/**
 The pie-chart callback: count the selected rows per `class` value, relabel
 1 as "Success" and 0 as "Fail", and title the chart after the selected site.
 */
module Pie {
  import opened Seqs
  import opened Launches
  import opened Selection

  const SuccessLabel: string := "Success"
  const FailLabel: string := "Fail"

  /** The number of rows of `s` whose class is `c`. */
  function CountClass(s: Dataset, c: ClassValue): (n: nat)
    ensures n <= |s|
    ensures n > 0 <==> exists i :: 0 <= i < |s| && s[i].cls == c
    decreases |s|
  {
    if |s| == 0 then 0
    else
      var n := (if s[0].cls == c then 1 else 0) + CountClass(s[1..], c);
      assert forall i :: 1 <= i < |s| ==> s[i] == s[1..][i - 1];
      n
  }

  /** A class count is the size of the rows of that class, kept in order. */
  lemma {:induction false} CountClassIsFilterSize(s: Dataset, c: ClassValue)
    ensures CountClass(s, c) == |Filter(s, (r: Record) => r.cls == c)|
    decreases |s|
  {
    if |s| > 0 {
      CountClassIsFilterSize(s[1..], c);
    }
  }

  /** Every row is counted under exactly one of the two classes. */
  lemma {:induction false} ClassCountsPartition(s: Dataset)
    ensures CountClass(s, 0) + CountClass(s, 1) == |s|
    decreases |s|
  {
    if |s| > 0 {
      ClassCountsPartition(s[1..]);
    }
  }

  /** The value looked up under `k`, or 0 when `k` has no entry. */
  function Get<K>(m: map<K, nat>, k: K): nat {
    if k in m then m[k] else 0
  }

  /**
   The tally of the `class` column: one entry per class value that occurs,
   holding the number of rows with that value.
   */
  function ValueCounts(s: Dataset): (m: map<ClassValue, nat>)
    ensures forall c: ClassValue :: c in m <==> CountClass(s, c) > 0
    ensures forall c: ClassValue :: c in m ==> m[c] == CountClass(s, c)
    decreases |s|
  {
    if |s| == 0 then map[]
    else
      var m := ValueCounts(s[1..]);
      m[s[0].cls := Get(m, s[0].cls) + 1]
  }

  /** The slice name shown for a class value. */
  function Label(c: ClassValue): string {
    if c == 1 then SuccessLabel else FailLabel
  }

  /**
   Renames the keys of a class tally to slice names, keeping every count:
   class 1 becomes "Success" and class 0 becomes "Fail".
   */
  function Relabel(vc: map<ClassValue, nat>): (p: map<string, nat>)
    ensures p.Keys <= {SuccessLabel, FailLabel}
    ensures SuccessLabel in p <==> 1 in vc
    ensures FailLabel in p <==> 0 in vc
    ensures Get(p, SuccessLabel) == Get(vc, 1)
    ensures Get(p, FailLabel) == Get(vc, 0)
  {
    assert Label(1) == SuccessLabel && Label(0) == FailLabel && SuccessLabel != FailLabel;
    map c | c in vc :: Label(c) := vc[c]
  }

  /** The total of the two slices of a pie. */
  function PieTotal(p: map<string, nat>): nat {
    Get(p, SuccessLabel) + Get(p, FailLabel)
  }

  /**
   The slices of the pie for the selected rows `sel`: one positive entry per
   class that occurs, none for a class that does not, adding up to |sel|.
   */
  function PieCounts(sel: Dataset): (p: map<string, nat>)
    ensures p.Keys <= {SuccessLabel, FailLabel}
    ensures SuccessLabel in p <==> exists i :: 0 <= i < |sel| && sel[i].cls == 1
    ensures FailLabel in p <==> exists i :: 0 <= i < |sel| && sel[i].cls == 0
    ensures forall l :: l in p ==> p[l] > 0
    ensures Get(p, SuccessLabel) == CountClass(sel, 1)
    ensures Get(p, FailLabel) == CountClass(sel, 0)
    ensures PieTotal(p) == |sel|
  {
    ClassCountsPartition(sel);
    Relabel(ValueCounts(sel))
  }

  /** The chart title: a fixed one for "ALL", otherwise the site appended to a fixed prefix. */
  function PieTitle(site: string): (t: string)
    ensures site == AllSites ==> t == "Launch success counts for all sites"
    ensures site != AllSites ==> t == "Launch success counts for " + site
  {
    Title("Launch success counts for ", site)
  }

  /**
   Two selections get the same pie title exactly when they are the same site,
   or are "ALL" and a site literally named "all sites".
   */
  lemma PieTitleIdentifiesSite(a: string, b: string)
    ensures PieTitle(a) == PieTitle(b) <==>
            (a == b || (a == AllSites && b == "all sites") || (a == "all sites" && b == AllSites))
  {
    TitleIdentifiesSite("Launch success counts for ", a, b);
  }

  /** What the callback hands to the plotting library. */
  datatype PieSpec = PieSpec(counts: map<string, nat>, title: string)

  /**
   The pie-chart callback. Its only input is the dropdown value: the payload
   range does not reach it.
   */
  function GetPieChart(ds: Dataset, site: string): (spec: PieSpec)
    ensures PieTotal(spec.counts) == |SelectSite(ds, site)|
    ensures site == AllSites ==> PieTotal(spec.counts) == |ds|
    ensures spec.counts.Keys <= {SuccessLabel, FailLabel}
    ensures forall l :: l in spec.counts ==> spec.counts[l] > 0
    ensures site == AllSites ==> spec.title == "Launch success counts for all sites"
    ensures site != AllSites ==> spec.title == "Launch success counts for " + site
  {
    PieSpec(PieCounts(SelectSite(ds, site)), PieTitle(site))
  }

  /**
   The slice for class `c` counts exactly the rows of the whole table that
   pass the site selection and have class `c`.
   */
  lemma SliceCountsSiteAndClass(ds: Dataset, site: string, c: ClassValue)
    ensures Get(GetPieChart(ds, site).counts, Label(c))
         == |Filter(ds, (r: Record) => SiteMatches(r, site) && r.cls == c)|
  {
    var sel := SelectSite(ds, site);
    SelectSiteIsFilter(ds, site);
    CountClassIsFilterSize(sel, c);
    FilterConjunction(ds, (r: Record) => SiteMatches(r, site), (r: Record) => r.cls == c,
                      (r: Record) => SiteMatches(r, site) && r.cls == c);
  }
}

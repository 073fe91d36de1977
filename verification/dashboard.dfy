/**
 How the dropdown and the site selection fit together: choosing each site
 entry of the dropdown in turn selects every launch exactly once.
 */
module Dashboard {
  import opened Launches
  import opened Selection
  import opened Dropdown

  /** The number of rows selected over all the entries of `opts`, one selection per entry. */
  function SelectedTotal(ds: Dataset, opts: seq<DropdownOption>): nat
    decreases |opts|
  {
    if |opts| == 0 then 0
    else |SelectSite(ds, opts[0].value)| + SelectedTotal(ds, opts[1..])
  }

  /** The rows selected over all the entries of `opts`, one selection per entry, pooled. */
  function SelectedRows(ds: Dataset, opts: seq<DropdownOption>): multiset<Record>
    decreases |opts|
  {
    if |opts| == 0 then multiset{}
    else multiset(SelectSite(ds, opts[0].value)) + SelectedRows(ds, opts[1..])
  }

  /** The number of entries of `opts` whose value is `v`. */
  function CountValue(opts: seq<DropdownOption>, v: string): nat
    decreases |opts|
  {
    if |opts| == 0 then 0
    else (if opts[0].value == v then 1 else 0) + CountValue(opts[1..], v)
  }

  /** A row in front of the table adds one to the selection of its own site and nothing elsewhere. */
  lemma SelectSiteCons(r: Record, ds: Dataset, site: string)
    requires site != AllSites
    ensures |SelectSite([r] + ds, site)| == (if r.site == site then 1 else 0) + |SelectSite(ds, site)|
  {
  }

  lemma {:induction false} SelectedTotalCons(r: Record, ds: Dataset, opts: seq<DropdownOption>)
    requires forall k :: 0 <= k < |opts| ==> opts[k].value != AllSites
    ensures SelectedTotal([r] + ds, opts) == CountValue(opts, r.site) + SelectedTotal(ds, opts)
    decreases |opts|
  {
    if |opts| > 0 {
      SelectSiteCons(r, ds, opts[0].value);
      SelectedTotalCons(r, ds, opts[1..]);
    }
  }

  /** A value carried by exactly one entry among entries with distinct values is counted once. */
  lemma {:induction false} CountDistinctValue(opts: seq<DropdownOption>, v: string)
    requires forall j, k :: 0 <= j < k < |opts| ==> opts[j].value != opts[k].value
    requires exists k :: 0 <= k < |opts| && opts[k].value == v
    ensures CountValue(opts, v) == 1
    decreases |opts|
  {
    if opts[0].value == v {
      CountAbsentValue(opts[1..], v);
    } else {
      var k :| 0 <= k < |opts| && opts[k].value == v;
      assert opts[1..][k - 1].value == v;
      CountDistinctValue(opts[1..], v);
    }
  }

  lemma {:induction false} CountAbsentValue(opts: seq<DropdownOption>, v: string)
    requires forall k :: 0 <= k < |opts| ==> opts[k].value != v
    ensures CountValue(opts, v) == 0
    decreases |opts|
  {
    if |opts| > 0 {
      CountAbsentValue(opts[1..], v);
    }
  }

  /**
   Among entries with distinct values, none of them "ALL", a row is pooled as
   often as the table holds it when its site has an entry, and never otherwise.
   */
  lemma {:induction false} SelectedRowsOfRow(ds: Dataset, opts: seq<DropdownOption>, r: Record)
    requires forall k :: 0 <= k < |opts| ==> opts[k].value != AllSites
    requires forall j, k :: 0 <= j < k < |opts| ==> opts[j].value != opts[k].value
    ensures SelectedRows(ds, opts)[r] == if CountValue(opts, r.site) > 0 then multiset(ds)[r] else 0
    decreases |opts|
  {
    if |opts| > 0 {
      var tail := opts[1..];
      assert forall j, k :: 0 <= j < k < |tail| ==> tail[j].value != tail[k].value by {
        assert forall k :: 0 <= k < |tail| ==> tail[k] == opts[k + 1];
      }
      SelectedRowsOfRow(ds, tail, r);
      if opts[0].value == r.site {
        CountAbsentValue(tail, r.site);
      }
    }
  }

  /** The pooled selections of distinct site entries covering every row are the table itself. */
  lemma DistinctSitesPoolTable(ds: Dataset, opts: seq<DropdownOption>)
    requires forall k :: 0 <= k < |opts| ==> opts[k].value != AllSites
    requires forall j, k :: 0 <= j < k < |opts| ==> opts[j].value != opts[k].value
    requires forall i :: 0 <= i < |ds| ==> exists k :: 0 <= k < |opts| && opts[k].value == ds[i].site
    ensures SelectedRows(ds, opts) == multiset(ds)
  {
    forall r
      ensures SelectedRows(ds, opts)[r] == multiset(ds)[r]
    {
      SelectedRowsOfRow(ds, opts, r);
      if r in ds {
        var i :| 0 <= i < |ds| && ds[i] == r;
        CountDistinctValue(opts, r.site);
      }
    }
  }

  /**
   Selecting each entry of a list of distinct sites, none of them "ALL", that
   covers every row's site, selects every row exactly once: the pooled
   selections are the table, so their sizes add up to the table's.
   */
  lemma {:induction false} DistinctSitesPartitionTable(ds: Dataset, opts: seq<DropdownOption>)
    requires forall k :: 0 <= k < |opts| ==> opts[k].value != AllSites
    requires forall j, k :: 0 <= j < k < |opts| ==> opts[j].value != opts[k].value
    requires forall i :: 0 <= i < |ds| ==> exists k :: 0 <= k < |opts| && opts[k].value == ds[i].site
    ensures SelectedRows(ds, opts) == multiset(ds)
    ensures SelectedTotal(ds, opts) == |ds|
    decreases |ds|
  {
    if |ds| == 0 {
      EmptyTableSelectsNothing(opts);
    } else {
      var r := ds[0];
      var rest := ds[1..];
      assert ds == [r] + rest;
      assert forall i :: 0 <= i < |rest| ==> rest[i] == ds[i + 1];
      DistinctSitesPartitionTable(rest, opts);
      SelectedTotalCons(r, rest, opts);
      CountDistinctValue(opts, r.site);
    }
    DistinctSitesPoolTable(ds, opts);
  }

  lemma {:induction false} EmptyTableSelectsNothing(opts: seq<DropdownOption>)
    ensures SelectedTotal([], opts) == 0
    decreases |opts|
  {
    if |opts| > 0 {
      EmptyTableSelectsNothing(opts[1..]);
    }
  }

  /** Every row's site is the value of some entry after "All Sites". */
  lemma SiteEntriesCoverTable(ds: Dataset)
    ensures forall i :: 0 <= i < |ds| ==>
              exists k :: 0 <= k < |DropdownOptions(ds)[1..]| && DropdownOptions(ds)[1..][k].value == ds[i].site
  {
    var all := DropdownOptions(ds);
    forall i | 0 <= i < |ds|
      ensures exists k :: 0 <= k < |all[1..]| && all[1..][k].value == ds[i].site
    {
      assert Sites(ds)[i] in Sites(ds);
      var k :| 1 <= k < |all| && all[k].value == ds[i].site;
      assert all[1..][k - 1].value == ds[i].site;
    }
  }

  /** The partition of the table by `siteEntries`, the entries after "All Sites". */
  lemma SiteEntriesPartitionTable(ds: Dataset, siteEntries: seq<DropdownOption>)
    requires AllSites !in Sites(ds)
    requires siteEntries == DropdownOptions(ds)[1..]
    ensures SelectedRows(ds, siteEntries) == multiset(ds)
    ensures SelectedTotal(ds, siteEntries) == |ds|
  {
    SiteEntriesCoverTable(ds);
    DistinctSitesPartitionTable(ds, siteEntries);
  }

  /**
   The site entries of the dropdown partition the table: when no site is
   literally named "ALL", the selections of the entries after "All Sites"
   pooled together are the whole table, each row exactly as often as the
   table holds it, and their sizes add up to the table's.
   */
  lemma DropdownSitesPartitionTable(ds: Dataset)
    requires AllSites !in Sites(ds)
    ensures SelectedRows(ds, DropdownOptions(ds)[1..]) == multiset(ds)
    ensures SelectedTotal(ds, DropdownOptions(ds)[1..]) == |ds|
  {
    SiteEntriesPartitionTable(ds, DropdownOptions(ds)[1..]);
  }
}

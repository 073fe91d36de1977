/**
 The launch-site dropdown: an "All Sites" entry followed by one entry per
 distinct launch site, in the order the sites first appear in the table.
 */
module Dropdown {
  import opened Seqs
  import opened Launches

  /** One dropdown entry: the caption shown (its label) and the value handed to the callbacks. */
  datatype DropdownOption = DropdownOption(caption: string, value: string)

  const AllOption: DropdownOption := DropdownOption("All Sites", AllSites)

  /** The launch-site column. */
  function Sites(ds: Dataset): (s: seq<string>)
    ensures |s| == |ds|
    ensures forall i :: 0 <= i < |ds| ==> s[i] == ds[i].site
  {
    seq(|ds|, i requires 0 <= i < |ds| => ds[i].site)
  }

  /** The distinct values of `s`, each kept where it first occurs. */
  function Unique<T(==,!new)>(s: seq<T>): (u: seq<T>)
    ensures NoDup(u)
    ensures forall x :: x in u <==> x in s
    decreases |s|
  {
    if |s| == 0 then []
    else
      var u := Unique(s[..|s| - 1]);
      var x := s[|s| - 1];
      assert s == s[..|s| - 1] + [x];
      if x in u then u else u + [x]
  }

  /** Unique lists the values in the order of their first occurrence in `s`. */
  lemma {:induction false} UniqueInFirstAppearanceOrder<T(!new)>(s: seq<T>)
    ensures forall j, k :: 0 <= j < k < |Unique(s)| ==>
              FirstIndex(s, Unique(s)[j]) < FirstIndex(s, Unique(s)[k])
    decreases |s|
  {
    if |s| > 0 {
      var n := |s| - 1;
      var p := s[..n];
      var x := s[n];
      var u' := Unique(p);
      UniqueInFirstAppearanceOrder(p);
      forall y | y in p
        ensures FirstIndex(s, y) == FirstIndex(p, y) < n
      {
        FirstIndexOfPrefix(s, n, y);
      }
      if x !in u' {
        assert FirstIndex(s, x) == n;
      }
    }
  }

  /**
   The distinct sites of the table in order of first appearance, computed the
   way a hash-based unique does: one pass, remembering the sites seen so far.
   */
  method UniqueSites(ds: Dataset) returns (u: seq<string>)
    ensures u == Unique(Sites(ds))
  {
    var sites := Sites(ds);
    var seen: set<string> := {};
    u := [];
    var i := 0;
    while i < |sites|
      invariant 0 <= i <= |sites|
      invariant u == Unique(sites[..i])
      invariant forall x :: x in seen <==> x in u
    {
      assert sites[..i + 1][..i] == sites[..i];
      if sites[i] !in seen {
        seen := seen + {sites[i]};
        u := u + [sites[i]];
      }
      i := i + 1;
    }
    assert sites[..|sites|] == sites;
  }

  /** The dropdown entries: "All Sites" first, then one entry per distinct site. */
  function DropdownOptions(ds: Dataset): (opts: seq<DropdownOption>)
    ensures |opts| == 1 + |Unique(Sites(ds))|
    ensures opts[0] == AllOption
    ensures forall k :: 1 <= k < |opts| ==> opts[k].caption == opts[k].value
    ensures forall k :: 1 <= k < |opts| ==> opts[k].value in Sites(ds)
    ensures forall site :: site in Sites(ds) ==> exists k :: 1 <= k < |opts| && opts[k].value == site
    ensures forall j, k :: 1 <= j < k < |opts| ==> opts[j].value != opts[k].value
  {
    var u := Unique(Sites(ds));
    var opts := [AllOption] + seq(|u|, k requires 0 <= k < |u| => DropdownOption(u[k], u[k]));
    assert forall k :: 1 <= k < |opts| ==> opts[k] == DropdownOption(u[k - 1], u[k - 1]);
    assert forall site :: site in u ==> exists k :: 1 <= k < |opts| && opts[k].value == site by {
      forall site | site in u
        ensures exists k :: 1 <= k < |opts| && opts[k].value == site
      {
        var k :| 0 <= k < |u| && u[k] == site;
        assert opts[k + 1].value == site;
      }
    }
    opts
  }

  /** The site entries follow the order in which the sites first appear in the table. */
  lemma OptionsInFirstAppearanceOrder(ds: Dataset)
    ensures forall j, k :: 1 <= j < k < |DropdownOptions(ds)| ==>
              FirstIndex(Sites(ds), DropdownOptions(ds)[j].value)
              < FirstIndex(Sites(ds), DropdownOptions(ds)[k].value)
  {
    var u := Unique(Sites(ds));
    var opts := DropdownOptions(ds);
    UniqueInFirstAppearanceOrder(Sites(ds));
    assert forall k :: 1 <= k < |opts| ==> opts[k].value == u[k - 1];
  }

  /** When no site is literally named "ALL", no two entries share a value. */
  lemma OptionValuesDistinct(ds: Dataset)
    requires AllSites !in Sites(ds)
    ensures forall j, k :: 0 <= j < k < |DropdownOptions(ds)| ==>
              DropdownOptions(ds)[j].value != DropdownOptions(ds)[k].value
  {
  }

  /** The option list as built at start-up: "All Sites", then one append per unique site. */
  method BuildDropdownOptions(ds: Dataset) returns (opts: seq<DropdownOption>)
    ensures opts == DropdownOptions(ds)
  {
    opts := [AllOption];
    var sites := UniqueSites(ds);
    for i := 0 to |sites|
      invariant |opts| == 1 + i
      invariant opts[0] == AllOption
      invariant forall k :: 1 <= k <= i ==> opts[k] == DropdownOption(sites[k - 1], sites[k - 1])
    {
      opts := opts + [DropdownOption(sites[i], sites[i])];
    }
  }
}

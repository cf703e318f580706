/**
  The menu catalog and the category filter of the customer menu screen
  (frontend-customer/src/components/Menu.js). The catalog is an ordered
  sequence of items; the filter projects it on one category tag, where the
  tag "all" is a wildcard.
 */
module Catalog {

  /** One catalog entry. Prices are whole VND amounts. */
  datatype MenuItem = MenuItem(
    id: int,
    name: string,
    description: string,
    price: nat,
    category: string,
    imageUrl: string)

  /** The filter tag that selects every item. */
  const ALL_TAG: string := "all"

  /** The items of `menu` whose category is exactly `tag`, in catalog order. */
  function ByCategory(menu: seq<MenuItem>, tag: string): (r: seq<MenuItem>)
    ensures |r| <= |menu|
    ensures forall x :: x in r <==> x in menu && x.category == tag
  {
    if menu == [] then []
    else
      var n := |menu| - 1;
      assert menu == menu[..n] + [menu[n]];
      ByCategory(menu[..n], tag) + (if menu[n].category == tag then [menu[n]] else [])
  }

  /** The visible part of the catalog for a filter tag. */
  function Filter(menu: seq<MenuItem>, tag: string): (r: seq<MenuItem>)
    ensures tag == ALL_TAG ==> r == menu
    ensures tag != ALL_TAG ==> forall x :: x in r <==> x in menu && x.category == tag
    ensures |r| <= |menu|
  {
    if tag == ALL_TAG then menu else ByCategory(menu, tag)
  }

  /** The catalog positions whose item has category `tag`, in increasing order. */
  function MatchingPositions(menu: seq<MenuItem>, tag: string): (ps: seq<nat>)
    ensures forall i :: 0 <= i < |ps| ==> ps[i] < |menu| && menu[ps[i]].category == tag
    ensures forall i, j :: 0 <= i < j < |ps| ==> ps[i] < ps[j]
    ensures forall k :: 0 <= k < |menu| && menu[k].category == tag ==> k in ps
  {
    if menu == [] then []
    else
      var n := |menu| - 1;
      MatchingPositions(menu[..n], tag) + (if menu[n].category == tag then [n] else [])
  }

  /**
    Order preservation: a non-wildcard filter returns exactly the items at the
    matching positions, taken in increasing position order, so the result is
    the subsequence of the catalog made of the items of that category.
   */
  lemma {:induction false} FilterKeepsOrder(menu: seq<MenuItem>, tag: string)
    requires tag != ALL_TAG
    ensures var r, ps := Filter(menu, tag), MatchingPositions(menu, tag);
      |r| == |ps| && forall i :: 0 <= i < |r| ==> r[i] == menu[ps[i]]
  {
    ByCategoryAtPositions(menu, tag);
  }

  lemma {:induction false} ByCategoryAtPositions(menu: seq<MenuItem>, tag: string)
    ensures var r, ps := ByCategory(menu, tag), MatchingPositions(menu, tag);
      |r| == |ps| && forall i :: 0 <= i < |r| ==> r[i] == menu[ps[i]]
  {
    if menu != [] {
      var n := |menu| - 1;
      ByCategoryAtPositions(menu[..n], tag);
    }
  }

  /**
    A non-wildcard filter keeps every item of that category as often as the
    catalog lists it, and no other item.
   */
  lemma {:induction false} FilterMultiplicity(menu: seq<MenuItem>, tag: string, x: MenuItem)
    requires tag != ALL_TAG
    ensures multiset(Filter(menu, tag))[x] == if x.category == tag then multiset(menu)[x] else 0
  {
    ByCategoryMultiplicity(menu, tag, x);
  }

  lemma {:induction false} ByCategoryMultiplicity(menu: seq<MenuItem>, tag: string, x: MenuItem)
    ensures multiset(ByCategory(menu, tag))[x] == if x.category == tag then multiset(menu)[x] else 0
  {
    if menu != [] {
      var n := |menu| - 1;
      ByCategoryMultiplicity(menu[..n], tag, x);
      assert menu == menu[..n] + [menu[n]];
    }
  }

  /** A tag that no item carries (other than the wildcard) shows nothing. */
  lemma {:induction false} UnknownTagShowsNothing(menu: seq<MenuItem>, tag: string)
    requires tag != ALL_TAG
    requires forall k :: 0 <= k < |menu| ==> menu[k].category != tag
    ensures Filter(menu, tag) == []
  {
    if menu != [] {
      UnknownTagShowsNothing(menu[..|menu| - 1], tag);
    }
  }
}

/** The catalog queries `getShoesByLocation`, `getShoesByPrice` and
    `getShoesBySeller`: filters over the listing `shoesStorage.values()`. */
module Catalog {
  import opened Types

  /** `xs.filter(keep)`: the elements of `xs` that `keep` accepts, in order. */
  function Filter<T>(xs: seq<T>, keep: T -> bool): (r: seq<T>)
    ensures |r| <= |xs|
    ensures forall x :: x in r ==> x in xs && keep(x)
    ensures forall x :: x in xs && keep(x) ==> x in r
    decreases |xs|
  {
    if xs == [] then []
    else
      var rest := Filter(xs[1..], keep);
      assert forall x :: x in xs[1..] ==> x in xs;
      assert forall x :: x in xs ==> x == xs[0] || x in xs[1..];
      if keep(xs[0]) then [xs[0]] + rest else rest
  }

  /** Filtering keeps every accepted element as often as it occurs and drops
      every other one. */
  lemma {:induction false} FilterCounts<T>(xs: seq<T>, keep: T -> bool, x: T)
    ensures multiset(Filter(xs, keep))[x] == if keep(x) then multiset(xs)[x] else 0
    decreases |xs|
  {
    if xs != [] {
      FilterCounts(xs[1..], keep, x);
      assert xs == [xs[0]] + xs[1..];
    }
  }

  /** Filtering a concatenation filters each part in place, so the result
      keeps the order of the listing. */
  lemma {:induction false} FilterAppend<T>(xs: seq<T>, ys: seq<T>, keep: T -> bool)
    ensures Filter(xs + ys, keep) == Filter(xs, keep) + Filter(ys, keep)
    decreases |xs|
  {
    if xs != [] {
      assert (xs + ys)[1..] == xs[1..] + ys;
      FilterAppend(xs[1..], ys, keep);
    } else {
      assert xs + ys == ys;
    }
  }

  function ShoesByLocation(shoes: seq<Shoe>, location: string): (r: seq<Shoe>)
    ensures forall s :: s in r <==> s in shoes && s.location == location
  {
    Filter(shoes, (s: Shoe) => s.location == location)
  }

  /** The price band is inclusive at both ends. */
  function ShoesByPrice(shoes: seq<Shoe>, minPrice: Nat64, maxPrice: Nat64): (r: seq<Shoe>)
    ensures forall s :: s in r <==> s in shoes && minPrice <= s.price <= maxPrice
    ensures maxPrice < minPrice ==> r == []
  {
    var r := Filter(shoes, (s: Shoe) => s.price >= minPrice && s.price <= maxPrice);
    assert r != [] ==> r[0] in r;
    r
  }

  function ShoesBySeller(shoes: seq<Shoe>, seller: Principal): (r: seq<Shoe>)
    ensures forall s :: s in r <==> s in shoes && s.seller == seller
  {
    Filter(shoes, (s: Shoe) => s.seller == seller)
  }
}

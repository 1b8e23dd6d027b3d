/**
 The selection rule of `subscription_price_view` (`subscriptions/views.py`):
 the featured prices of exactly one billing interval, yearly when the
 requested interval is the yearly choice and monthly otherwise. Rendering
 and the request object are not modelled.
 */
module PricingView {

  /** The values of `SubscriptionPrice.IntervalChoices`. */
  const Monthly: string := "month"
  const Yearly: string := "year"

  /** A `SubscriptionPrice` row, reduced to the fields the view filters on. */
  datatype Price = Price(id: nat, interval: string, featured: bool)

  /** `a` is `b` with some elements left out, the rest in their order. */
  predicate IsSubsequence<T(==)>(a: seq<T>, b: seq<T>)
    decreases |b|
  {
    a == [] || (b != [] && ((a[0] == b[0] && IsSubsequence(a[1..], b[1..])) || IsSubsequence(a, b[1..])))
  }

  /** The interval the view shows for a requested `interval`. */
  function SelectedInterval(interval: string): (r: string)
    ensures r == Yearly <==> interval == Yearly
    ensures r == Yearly || r == Monthly
  {
    if interval == Yearly then Yearly else Monthly
  }

  /** `qs.filter(featured=True)`. */
  function FeaturedOnly(prices: seq<Price>): (r: seq<Price>)
    ensures forall p :: p in r <==> p in prices && p.featured
  {
    if prices == [] then []
    else (if prices[0].featured then [prices[0]] else []) + FeaturedOnly(prices[1..])
  }

  /** `qs.filter(interval=interval)`. */
  function WithInterval(prices: seq<Price>, interval: string): (r: seq<Price>)
    ensures forall p :: p in r <==> p in prices && p.interval == interval
  {
    if prices == [] then []
    else (if prices[0].interval == interval then [prices[0]] else []) + WithInterval(prices[1..], interval)
  }

  /** `subscription_price_view`'s `object_list`: exactly the featured
      prices of the selected interval (the one-pass selection), every one of
      them with its multiplicity and nothing else, in input order; so every
      listed price is featured, and all are yearly when `interval` is the
      yearly choice and all monthly otherwise. */
  function PriceList(prices: seq<Price>, interval: string): (r: seq<Price>)
    ensures r == FeaturedOf(prices, SelectedInterval(interval))
    ensures IsSubsequence(r, prices)
    ensures forall p ::
      multiset(r)[p] == (if p.featured && p.interval == SelectedInterval(interval) then multiset(prices)[p] else 0)
    ensures forall k :: 0 <= k < |r| ==>
      r[k].featured && r[k].interval == (if interval == Yearly then Yearly else Monthly)
  {
    var qs := FeaturedOnly(prices);
    var objectList := WithInterval(qs, Monthly);
    var r := if interval == Yearly then WithInterval(qs, Yearly) else objectList;
    ChainedFiltersAreOnePass(prices, SelectedInterval(interval));
    FeaturedOfOrdered(prices, SelectedInterval(interval));
    FeaturedOfCounts(prices, SelectedInterval(interval));
    assert forall k :: 0 <= k < |r| ==> r[k] in r;
    r
  }

  /** Reference definition: one pass keeping exactly the featured prices of
      interval `selected`. */
  function FeaturedOf(prices: seq<Price>, selected: string): (r: seq<Price>)
  {
    if prices == [] then []
    else
      (if prices[0].featured && prices[0].interval == selected then [prices[0]] else [])
      + FeaturedOf(prices[1..], selected)
  }

  /** The chained filters of the view select what one pass over the input
      selects. */
  lemma {:induction false} ChainedFiltersAreOnePass(prices: seq<Price>, selected: string)
    ensures WithInterval(FeaturedOnly(prices), selected) == FeaturedOf(prices, selected)
  {
    if prices != [] {
      ChainedFiltersAreOnePass(prices[1..], selected);
      var head := if prices[0].featured then [prices[0]] else [];
      WithIntervalAppend(head, FeaturedOnly(prices[1..]), selected);
      if head != [] {
        assert head[1..] == [];
      }
    }
  }

  lemma {:induction false} WithIntervalAppend(a: seq<Price>, b: seq<Price>, interval: string)
    ensures WithInterval(a + b, interval) == WithInterval(a, interval) + WithInterval(b, interval)
  {
    if a != [] {
      assert (a + b)[0] == a[0] && (a + b)[1..] == a[1..] + b;
      WithIntervalAppend(a[1..], b, interval);
      var head := if a[0].interval == interval then [a[0]] else [];
      assert WithInterval(a + b, interval) == head + WithInterval(a[1..] + b, interval);
      assert (head + WithInterval(a[1..], interval)) + WithInterval(b, interval)
          == head + (WithInterval(a[1..], interval) + WithInterval(b, interval));
    } else {
      assert a + b == b;
    }
  }

  /** The one-pass filter keeps the input order. */
  lemma {:induction false} FeaturedOfOrdered(prices: seq<Price>, selected: string)
    ensures IsSubsequence(FeaturedOf(prices, selected), prices)
  {
    if prices != [] {
      FeaturedOfOrdered(prices[1..], selected);
      var rest := FeaturedOf(prices[1..], selected);
      if prices[0].featured && prices[0].interval == selected {
        var r := [prices[0]] + rest;
        assert r[0] == prices[0] && r[1..] == rest;
      } else {
        assert FeaturedOf(prices, selected) == [] + rest == rest;
      }
    }
  }

  /** The one-pass filter keeps a price once for each time the input holds
      it when it is featured and of interval `selected`, and never
      otherwise. */
  lemma {:induction false} FeaturedOfCount(prices: seq<Price>, selected: string, p: Price)
    ensures multiset(FeaturedOf(prices, selected))[p]
         == if p.featured && p.interval == selected then multiset(prices)[p] else 0
  {
    if prices != [] {
      FeaturedOfCount(prices[1..], selected, p);
      assert prices == [prices[0]] + prices[1..];
      var head := if prices[0].featured && prices[0].interval == selected then [prices[0]] else [];
      assert multiset(FeaturedOf(prices, selected)) == multiset(head) + multiset(FeaturedOf(prices[1..], selected));
    }
  }

  /** `FeaturedOfCount` for every price at once. */
  lemma FeaturedOfCounts(prices: seq<Price>, selected: string)
    ensures forall p ::
      multiset(FeaturedOf(prices, selected))[p] == (if p.featured && p.interval == selected then multiset(prices)[p] else 0)
  {
    forall p {
      FeaturedOfCount(prices, selected, p);
    }
  }

  /** With the default argument `"month"`, and with any unrecognised
      string, the view lists the featured monthly prices. */
  lemma DefaultIsMonthly(prices: seq<Price>, interval: string)
    requires interval != Yearly
    ensures PriceList(prices, interval) == FeaturedOf(prices, Monthly)
    ensures PriceList(prices, "month") == FeaturedOf(prices, Monthly)
  {
    ChainedFiltersAreOnePass(prices, Monthly);
  }
}

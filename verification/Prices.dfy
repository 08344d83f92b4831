/** Purchase prices with effective dates, and the cost they give each day. */
module Prices {
  import opened Common

  datatype Price = Price(product: string, from: int, cost: int)

  /** At most one price per product and date. */
  predicate OnePerDate(prices: seq<Price>) {
    forall i, j :: 0 <= i < j < |prices| ==> !SameDate(prices[i], prices[j])
  }

  predicate Applies(p: Price, product: string, day: int) { p.product == product && p.from <= day }

  /** The price in force: of those effective by then, the one with the latest date. */
  function InForce(prices: seq<Price>, product: string, day: int): Option<Price> {
    if prices == [] then None
    else
      var rest, last := InForce(prices[..|prices| - 1], product, day), prices[|prices| - 1];
      if Applies(last, product, day) && (rest.None? || rest.value.from < last.from) then Some(last) else rest
  }

  function CostOn(prices: seq<Price>, product: string, day: int): Option<int> {
    var p := InForce(prices, product, day);
    if p.None? then None else Some(p.value.cost)
  }

  /** Replaces the cost recorded for this product and date, or adds it. */
  function Upserted(prices: seq<Price>, p: Price): seq<Price> {
    if prices == [] then [p]
    else
      var front, last := prices[..|prices| - 1], prices[|prices| - 1];
      if SameDate(last, p) then front + [p] else Upserted(front, p) + [last]
  }

  class PriceBook {
    var prices: seq<Price>

    /** A negative cost is refused. */
    method SetPurchasePrice(p: Price) returns (r: Result<()>)
      modifies this
      ensures r.Ok? <==> p.cost >= 0
      ensures prices == if p.cost >= 0 then Upserted(old(prices), p) else old(prices)
    {
      if p.cost < 0 { return Err("cost per litre cannot be negative"); }
      var i: nat := |prices|;
      assert prices[..i] == prices && prices[i..] == [];
      while i > 0 && !SameDate(prices[i - 1], p)
        invariant i <= |prices|
        invariant Upserted(prices, p) == Upserted(prices[..i], p) + prices[i..]
      {
        assert prices[..i][..i - 1] == prices[..i - 1];
        assert [prices[i - 1]] + prices[i..] == prices[i - 1..];
        i := i - 1;
      }
      if i == 0 {
        assert prices[..0] == [];
        prices := [p] + prices;
      } else {
        assert prices[..i][..i - 1] == prices[..i - 1];
        prices := prices[..i - 1] + [p] + prices[i..];
      }
      return Ok(());
    }
  }

  // ----- what is in force -----

  /** `p` is a price in force for `product` on `day`, and no other has a later date. */
  ghost predicate IsInForce(prices: seq<Price>, product: string, day: int, p: Option<Price>) {
    (forall q :: q in prices && Applies(q, product, day) ==> p.Some? && q.from <= p.value.from) &&
    (p.Some? ==> p.value in prices && Applies(p.value, product, day))
  }

  lemma {:induction false} InForceIsLatest(prices: seq<Price>, product: string, day: int)
    ensures IsInForce(prices, product, day, InForce(prices, product, day))
  {
    if prices != [] {
      var front, last := prices[..|prices| - 1], prices[|prices| - 1];
      InForceIsLatest(front, product, day);
      assert prices == front + [last];
    }
  }

  lemma InForceIsUnique(prices: seq<Price>, product: string, day: int, p: Option<Price>, q: Option<Price>)
    requires OnePerDate(prices) && IsInForce(prices, product, day, p) && IsInForce(prices, product, day, q)
    ensures p == q
  {
    if p.Some? && q.Some? {
      var i :| 0 <= i < |prices| && prices[i] == p.value;
      var j :| 0 <= j < |prices| && prices[j] == q.value;
    }
  }

  predicate SameDate(p: Price, q: Price) { p.product == q.product && p.from == q.from }

  lemma LastOnItsDate(prices: seq<Price>, q: Price)
    requires OnePerDate(prices) && prices != [] && q in prices[..|prices| - 1]
    ensures !SameDate(q, prices[|prices| - 1])
  {
    var i :| 0 <= i < |prices| - 1 && prices[i] == q;
  }

  lemma {:induction false} UpsertedHas(prices: seq<Price>, p: Price, q: Price)
    requires OnePerDate(prices)
    ensures q in Upserted(prices, p) <==> q == p || (q in prices && !SameDate(q, p))
  {
    if prices != [] {
      var front, last := prices[..|prices| - 1], prices[|prices| - 1];
      assert prices == front + [last];
      if SameDate(last, p) {
        assert Upserted(prices, p) == front + [p];
        if q in front { LastOnItsDate(prices, q); }
      } else {
        UpsertedHas(front, p, q);
        assert Upserted(prices, p) == Upserted(front, p) + [last];
      }
    }
  }

  lemma {:induction false} UpsertedOnePerDate(prices: seq<Price>, p: Price)
    requires OnePerDate(prices)
    ensures OnePerDate(Upserted(prices, p))
  {
    if prices != [] {
      var front, last := prices[..|prices| - 1], prices[|prices| - 1];
      UpsertedOnePerDate(front, p);
      var r := Upserted(prices, p);
      if !SameDate(last, p) {
        forall i | 0 <= i < |r| - 1 ensures !SameDate(r[i], last) {
          UpsertedHas(front, p, r[i]);
          assert r[i] in Upserted(front, p);
          if r[i] in front { var k :| 0 <= k < |front| && front[k] == r[i]; assert prices[k] == r[i]; }
        }
      }
    }
  }

  /** Day `day` is reached by a price from `from` before the product's next recorded price. */
  ghost predicate Reached(prices: seq<Price>, product: string, from: int, day: int) {
    from <= day && forall q :: q in prices && q.product == product && q.from > from ==> day < q.from
  }

  /**
    Setting a price changes the cost of exactly that product's days from its date up to the next recorded
    price, and sets it there.
   */
  lemma PriceReachesNext(prices: seq<Price>, p: Price, product: string, day: int)
    requires OnePerDate(prices)
    ensures CostOn(Upserted(prices, p), product, day) ==
              if product == p.product && Reached(prices, product, p.from, day) then Some(p.cost)
              else CostOn(prices, product, day)
  {
    var after := Upserted(prices, p);
    UpsertedOnePerDate(prices, p);
    InForceIsLatest(prices, product, day);
    InForceIsLatest(after, product, day);
    forall q ensures q in after <==> q == p || (q in prices && !SameDate(q, p)) {
      UpsertedHas(prices, p, q);
    }
    var now := InForce(after, product, day);
    if product == p.product && Reached(prices, product, p.from, day) {
      assert IsInForce(after, product, day, Some(p));
      InForceIsUnique(after, product, day, now, Some(p));
    } else {
      var before := InForce(prices, product, day);
      assert IsInForce(after, product, day, before);
      InForceIsUnique(after, product, day, now, before);
    }
  }
}

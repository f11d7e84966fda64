/**
 * What a product card in the overview shows: stock totals, the potential profit of
 * the unsold stock, the status badge and the list of sizes still in stock.
 */
module ProductCard {
  import opened Wrappers
  import opened Text
  import opened Inventory

  /** Units in stock: everything bought less everything sold. */
  function AvailableQuantity(p: Product): int {
    TotalOf(p.sizes) - SoldOf(p.sizes)
  }

  /** With valid stock, what is available lies between nothing and everything bought. */
  lemma AvailableWithinStock(p: Product)
    requires SizesValid(p.sizes)
    ensures 0 <= AvailableQuantity(p) <= TotalOf(p.sizes)
  {
    SoldAtMostTotal(p.sizes);
  }

  /**
   * What selling the rest at the listed sale price would earn over the purchase
   * price; nothing when no (or a zero) sale price is set. The card shows it as a
   * gain exactly when it is positive.
   */
  function PotentialProfit(p: Product): (r: int)
    ensures p.salePrice.None? || p.salePrice.value == 0 || AvailableQuantity(p) == 0 ==> r == 0
    ensures p.salePrice.Some? && p.salePrice.value != 0 && AvailableQuantity(p) > 0 ==>
              (r > 0 <==> p.salePrice.value > p.purchasePrice)
              && (r < 0 <==> p.salePrice.value < p.purchasePrice)
  {
    if p.salePrice.Some? && p.salePrice.value != 0 then
      (p.salePrice.value - p.purchasePrice) * AvailableQuantity(p)
    else 0
  }

  /** Selling at or above the purchase price never shows a loss. */
  lemma NoLossAtOrAbovePurchase(p: Product)
    requires SizesValid(p.sizes) && p.salePrice.Some? && p.salePrice.value >= p.purchasePrice
    ensures PotentialProfit(p) >= 0
  {
    AvailableWithinStock(p);
  }

  predicate IsSoldOut(p: Product) { AvailableQuantity(p) == 0 }

  predicate IsPartialSold(p: Product) { SoldOf(p.sizes) > 0 && AvailableQuantity(p) > 0 }

  datatype BadgeKind = SoldOut | Partial | InStock

  datatype Badge = Badge(kind: BadgeKind, text: string)

  /** The badge: "Uitverkocht" when sold out, otherwise the number of units left. */
  function CardBadge(p: Product): (b: Badge)
    ensures b.kind == SoldOut <==> AvailableQuantity(p) == 0
    ensures b.kind == Partial <==> SoldOf(p.sizes) > 0 && AvailableQuantity(p) > 0
    ensures b.kind == SoldOut ==> b.text == "Uitverkocht"
    ensures b.kind != SoldOut ==> b.text == IntToString(AvailableQuantity(p)) + " beschikbaar"
  {
    var kind := if IsSoldOut(p) then SoldOut else if IsPartialSold(p) then Partial else InStock;
    Badge(kind, if IsSoldOut(p) then "Uitverkocht" else IntToString(AvailableQuantity(p)) + " beschikbaar")
  }

  /** A product is never both sold out and partly sold. */
  lemma SoldOutExcludesPartial(p: Product)
    ensures !(IsSoldOut(p) && IsPartialSold(p))
  {
  }

  /** A product with nothing sold shows as in stock, or as sold out when it has no stock at all. */
  lemma UnsoldIsInStock(p: Product)
    requires SoldOf(p.sizes) == 0
    ensures CardBadge(p).kind == SoldOut <==> TotalOf(p.sizes) == 0
    ensures CardBadge(p).kind != Partial
  {
  }

  /** The labels of the sizes that still have stock, in size order. */
  function AvailableLabels(sizes: seq<Size>): (r: seq<string>)
    ensures |r| <= |sizes|
    ensures forall l :: l in r <==> exists i :: 0 <= i < |sizes| && sizes[i].size == l
                                                && sizes[i].totalQuantity > sizes[i].soldQuantity
  {
    if |sizes| == 0 then []
    else
      var rest := AvailableLabels(sizes[..|sizes| - 1]);
      var s := sizes[|sizes| - 1];
      assert forall i :: 0 <= i < |sizes| - 1 ==> sizes[i] == sizes[..|sizes| - 1][i];
      if s.totalQuantity > s.soldQuantity then rest + [s.size] else rest
  }

  /** Filtering keeps order: the labels of two runs of sizes are the two lists, one after the other. */
  lemma {:induction false} AvailableLabelsAppend(a: seq<Size>, b: seq<Size>)
    ensures AvailableLabels(a + b) == AvailableLabels(a) + AvailableLabels(b)
    decreases |b|
  {
    if |b| > 0 {
      var b' := b[..|b| - 1];
      assert (a + b)[..|a + b| - 1] == a + b';
      AvailableLabelsAppend(a, b');
    } else {
      assert a + b == a;
    }
  }

  /** When every size has stock, every label is listed, in order. */
  lemma {:induction false} AllAvailable(sizes: seq<Size>)
    requires forall i :: 0 <= i < |sizes| ==> sizes[i].totalQuantity > sizes[i].soldQuantity
    ensures AvailableLabels(sizes) == seq(|sizes|, i requires 0 <= i < |sizes| => sizes[i].size)
  {
    if |sizes| > 0 {
      AllAvailable(sizes[..|sizes| - 1]);
    }
  }

  /** The sizes line: the labels in stock joined by ", ", or "Geen" when that comes out empty. */
  function SizesText(p: Product): (t: string)
    ensures |AvailableLabels(p.sizes)| == 0 ==> t == "Geen"
    ensures |AvailableLabels(p.sizes)| >= 2 ==> t == Join(AvailableLabels(p.sizes), ", ")
    ensures |AvailableLabels(p.sizes)| == 1 ==>
              t == if AvailableLabels(p.sizes)[0] == "" then "Geen" else AvailableLabels(p.sizes)[0]
  {
    var joined := Join(AvailableLabels(p.sizes), ", ");
    JoinEmpty(AvailableLabels(p.sizes), ", ");
    if joined == "" then "Geen" else joined
  }
}

/**
 * The in-memory store of the demo mode: the product list with its sizes and the
 * sale history (`useMockProducts`), and the statistics view over them with its
 * period navigation and starting budget (`useMockStats`).
 *
 * Each operation runs to completion before the next one starts; a sale that is
 * refused changes nothing. Every timestamp a call takes (`Date.now()` for new ids,
 * `new Date()` for `created_at`, `deleted_at` and `sold_at`) is the one instant
 * `now` the caller passes in.
 */
module Store {
  import opened Wrappers
  import opened Text
  import opened Inventory
  import Accounting
  import Periods

  /** The label of the size a product without sizes gets. */
  const OneSize: string := "One Size"

  /** The error a sale beyond the stock of its size is refused with. */
  const NotEnoughStock: string := "Niet genoeg voorraad beschikbaar"

  function ProductId(stamp: int): string { "mock-" + IntToString(stamp) }

  function SizeId(stamp: int, i: nat): string { "mock-size-" + IntToString(stamp) + "-" + NatToString(i) }

  function SaleId(stamp: int): string { "mock-sale-" + IntToString(stamp) }

  /** `notes || null`: empty notes are stored as no notes. */
  function NotesOrNull(notes: string): (r: Option<string>)
    ensures r.None? <==> notes == ""
    ensures r.Some? ==> r.value == notes
  {
    if notes == "" then None else Some(notes)
  }

  // ---------------------------------------------------------------- create

  /** The sizes a new product is created with: those given, else one "One Size" of `quantity || 1`. */
  function CreateRequests(data: ProductData): (r: seq<SizeRequest>)
    ensures data.sizes.Some? ==> r == data.sizes.value
    ensures data.sizes.None? ==>
              |r| == 1 && r[0].size == OneSize && r[0].quantity.Some? && r[0].quantity.value != 0
    ensures data.sizes.None? && (data.quantity.Some? ==> data.quantity.value >= 0) ==> Stockable(r)
  {
    if data.sizes.Some? then data.sizes.value
    else [SizeRequest(OneSize, Some(OrElse(data.quantity, 1)), None)]
  }

  /** Every requested size says how many units it starts with, and none is negative. */
  predicate Stockable(requests: seq<SizeRequest>) {
    forall i :: 0 <= i < |requests| ==> requests[i].quantity.Some? && requests[i].quantity.value >= 0
  }

  /** The product `createProduct` builds: nothing sold, nothing deleted, no average yet. */
  function NewProduct(data: ProductData, now: int): (p: Product)
    requires Stockable(CreateRequests(data))
    ensures p.id == ProductId(now) && p.name == data.name && p.createdAt == now
    ensures p.purchasePrice == data.purchasePrice && p.purchaseDate == Some(data.purchaseDate)
    ensures p.notes.None? <==> data.notes == ""
    ensures p.imageUrl == data.newImage
    ensures p.deletedAt.None? && p.avgSalePrice.None? && p.salePrice.None?
    ensures |p.sizes| == |CreateRequests(data)|
    ensures forall i :: 0 <= i < |p.sizes| ==>
              p.sizes[i].id == SizeId(now, i) && p.sizes[i].size == CreateRequests(data)[i].size
              && p.sizes[i].totalQuantity == CreateRequests(data)[i].quantity.value
              && p.sizes[i].soldQuantity == 0
    ensures data.sizes.None? ==> p.sizes == [Size(SizeId(now, 0), OneSize, OrElse(data.quantity, 1), 0)]
    ensures SizesValid(p.sizes)
  {
    var requests := CreateRequests(data);
    Product(
      ProductId(now), data.name, data.purchasePrice, Some(data.purchaseDate), NotesOrNull(data.notes),
      data.newImage, now, None,
      seq(|requests|, i requires 0 <= i < |requests| =>
        Size(SizeId(now, i), requests[i].size, requests[i].quantity.value, 0)),
      None, None)
  }

  // ---------------------------------------------------------------- update

  /** `sizes.find(ps => ps.size === wanted)`: the first size with that label. */
  function FindByLabel(sizes: seq<Size>, wanted: string): (r: Option<Size>)
    ensures r.Some? ==> exists i :: 0 <= i < |sizes| && sizes[i] == r.value
                                    && sizes[i].size == wanted
                                    && forall k :: 0 <= k < i ==> sizes[k].size != wanted
    ensures r.None? <==> forall i :: 0 <= i < |sizes| ==> sizes[i].size != wanted
  {
    if |sizes| == 0 then None
    else if sizes[0].size == wanted then Some(sizes[0])
    else
      var r := FindByLabel(sizes[1..], wanted);
      assert forall i :: 1 <= i < |sizes| ==> sizes[i] == sizes[1..][i - 1];
      r
  }

  /** The size a request turns into when product sizes `existing` are edited. */
  function ResolveSize(existing: seq<Size>, r: SizeRequest, stamp: int, i: nat): Size {
    match FindByLabel(existing, r.size)
    case Some(e) => e.(totalQuantity := e.totalQuantity + OrElse(r.additionalQuantity, 0))
    case None => Size(SizeId(stamp, i), r.size, OrElse(r.quantity, OrElse(r.additionalQuantity, 1)), 0)
  }

  /**
   * The sizes of an edited product: one per request, in request order. A label the
   * product already has keeps its id and its sold count and grows by the added
   * stock; a new label starts with nothing sold. Sizes not requested are dropped.
   */
  function UpdatedSizes(existing: seq<Size>, requests: seq<SizeRequest>, stamp: int): (r: seq<Size>)
    ensures |r| == |requests|
    ensures forall i :: 0 <= i < |r| ==> r[i].size == requests[i].size
    ensures forall i :: 0 <= i < |r| ==>
              match FindByLabel(existing, requests[i].size)
              case Some(e) =>
                r[i].id == e.id && r[i].soldQuantity == e.soldQuantity
                && r[i].totalQuantity == e.totalQuantity + OrElse(requests[i].additionalQuantity, 0)
              case None =>
                r[i].id == SizeId(stamp, i) && r[i].soldQuantity == 0
                && r[i].totalQuantity == OrElse(requests[i].quantity, OrElse(requests[i].additionalQuantity, 1))
  {
    seq(|requests|, i requires 0 <= i < |requests| => ResolveSize(existing, requests[i], stamp, i))
  }

  /** No requested quantity, new or additional, is negative. */
  predicate NonNegativeRequests(requests: seq<SizeRequest>) {
    forall i :: 0 <= i < |requests| ==>
      (requests[i].quantity.Some? ==> requests[i].quantity.value >= 0)
      && (requests[i].additionalQuantity.Some? ==> requests[i].additionalQuantity.value >= 0)
  }

  /** Editing keeps every size within its stock. */
  lemma UpdatedSizesValid(existing: seq<Size>, requests: seq<SizeRequest>, stamp: int)
    requires SizesValid(existing) && NonNegativeRequests(requests)
    ensures SizesValid(UpdatedSizes(existing, requests, stamp))
  {
    var r := UpdatedSizes(existing, requests, stamp);
    forall i | 0 <= i < |r|
      ensures SizeValid(r[i])
    {
      var e := FindByLabel(existing, requests[i].size);
      if e.Some? {
        var k :| 0 <= k < |existing| && existing[k] == e.value;
        assert SizeValid(existing[k]);
      }
    }
  }

  /**
   * The product `updateProduct` writes: new details and the edited sizes; its id,
   * creation and deletion stamps and prices from sales are kept, and so is its
   * image unless a new one was chosen.
   */
  function UpdatedProduct(p: Product, data: ProductData, now: int): (r: Product)
    ensures r.id == p.id && r.createdAt == p.createdAt && r.deletedAt == p.deletedAt
    ensures r.avgSalePrice == p.avgSalePrice && r.salePrice == p.salePrice
    ensures r.name == data.name && r.purchasePrice == data.purchasePrice && r.purchaseDate == Some(data.purchaseDate)
    ensures r.notes.None? <==> data.notes == ""
    ensures r.imageUrl == if data.newImage.Some? then data.newImage else data.imageUrl
    ensures r.sizes == UpdatedSizes(p.sizes, data.sizes.GetOr([]), now)
    ensures SizesValid(p.sizes) && NonNegativeRequests(data.sizes.GetOr([])) ==> SizesValid(r.sizes)
  {
    assert SizesValid(p.sizes) && NonNegativeRequests(data.sizes.GetOr([])) ==>
           SizesValid(UpdatedSizes(p.sizes, data.sizes.GetOr([]), now)) by {
      if SizesValid(p.sizes) && NonNegativeRequests(data.sizes.GetOr([])) {
        UpdatedSizesValid(p.sizes, data.sizes.GetOr([]), now);
      }
    }
    p.(name := data.name, purchasePrice := data.purchasePrice, purchaseDate := Some(data.purchaseDate),
       notes := NotesOrNull(data.notes),
       imageUrl := if data.newImage.Some? then data.newImage else data.imageUrl,
       sizes := UpdatedSizes(p.sizes, data.sizes.GetOr([]), now))
  }

  /**
   * An edited size keeps the ledger: a size the product had keeps its id and its
   * sold count, a new one starts at zero under an unused id.
   */
  lemma EditKeepsLedger(existing: seq<Size>, requests: seq<SizeRequest>, sales: seq<Sale>, now: int, j: int)
    requires forall k :: 0 <= k < |existing| ==> existing[k].soldQuantity == SoldBySales(sales, existing[k].id)
    requires StampUnused(sales, now)
    requires 0 <= j < |requests|
    ensures var r := UpdatedSizes(existing, requests, now);
            r[j].soldQuantity == SoldBySales(sales, r[j].id)
  {
    var e := FindByLabel(existing, requests[j].size);
    if e.Some? {
      var k :| 0 <= k < |existing| && existing[k] == e.value;
    } else {
      NothingSoldOfNewSize(sales, now, j);
    }
  }

  // ---------------------------------------------------------------- delete

  /** `deleteProduct`: stamp every product with the id as deleted at `now`. */
  function MarkDeleted(products: seq<Product>, productId: string, now: int): (r: seq<Product>)
    ensures |r| == |products|
    ensures forall i :: 0 <= i < |r| ==>
              if products[i].id == productId then r[i] == products[i].(deletedAt := Some(now))
              else r[i] == products[i]
  {
    seq(|products|, i requires 0 <= i < |products| =>
      if products[i].id == productId then products[i].(deletedAt := Some(now)) else products[i])
  }

  /** The product list the store exposes: those not deleted, in store order. */
  function ActiveProducts(products: seq<Product>): (r: seq<Product>)
    ensures forall p :: p in r <==> p in products && IsActive(p)
    ensures |r| <= |products|
  {
    if |products| == 0 then []
    else
      var rest := ActiveProducts(products[..|products| - 1]);
      var p := products[|products| - 1];
      assert products == products[..|products| - 1] + [p];
      if IsActive(p) then rest + [p] else rest
  }

  /** The filter keeps store order: the active products of `a + b` are those of `a`, then those of `b`. */
  lemma {:induction false} ActiveProductsAppend(a: seq<Product>, b: seq<Product>)
    ensures ActiveProducts(a + b) == ActiveProducts(a) + ActiveProducts(b)
  {
    if |b| == 0 {
      assert a + b == a;
    } else {
      var init, last := b[..|b| - 1], b[|b| - 1];
      assert b == init + [last];
      assert a + b == (a + init) + [last];
      ActiveProductsAppend(a, init);
      ActiveProductsSnoc(a + init, last);
      ActiveProductsSnoc(init, last);
    }
  }

  lemma ActiveProductsSnoc(s: seq<Product>, last: Product)
    ensures ActiveProducts(s + [last]) == ActiveProducts(s) + (if IsActive(last) then [last] else [])
  {
    assert (s + [last])[..|s|] == s;
  }

  /** The exposed list is as long as the active count the statistics report. */
  lemma {:induction false} ActiveProductsCount(products: seq<Product>)
    ensures |ActiveProducts(products)| == Accounting.ActiveCount(products)
  {
    if |products| > 0 {
      ActiveProductsCount(products[..|products| - 1]);
    }
  }

  /**
   * After a delete the product no longer shows, whatever the timestamp, and every
   * other product shows exactly as before.
   */
  lemma DeleteHides(products: seq<Product>, productId: string, now: int)
    ensures forall p :: p in ActiveProducts(MarkDeleted(products, productId, now)) ==> p.id != productId
    ensures forall p: Product :: p.id != productId ==>
              (p in ActiveProducts(MarkDeleted(products, productId, now)) <==> p in ActiveProducts(products))
  {
    var r := MarkDeleted(products, productId, now);
    forall p: Product | p.id != productId
      ensures p in r <==> p in products
    {
      if p in r {
        var i :| 0 <= i < |r| && r[i] == p;
        assert products[i] == p;
      }
      if p in products {
        var i :| 0 <= i < |products| && products[i] == p;
        assert r[i] == p;
      }
    }
  }

  // ---------------------------------------------------------------- sell

  /** Some size with id `sizeId` has fewer than `quantity` units left. */
  predicate Oversells(products: seq<Product>, sizeId: string, quantity: int) {
    exists i, j :: 0 <= i < |products| && 0 <= j < |products[i].sizes|
      && products[i].sizes[j].id == sizeId
      && products[i].sizes[j].soldQuantity + quantity > products[i].sizes[j].totalQuantity
  }

  function SellSize(s: Size, sizeId: string, quantity: int): Size {
    if s.id != sizeId then s else s.(soldQuantity := s.soldQuantity + quantity)
  }

  /** Every size with id `sizeId` has `quantity` more units sold; nothing else changes. */
  function SoldApplied(products: seq<Product>, sizeId: string, quantity: int): (r: seq<Product>)
    ensures |r| == |products|
    ensures forall i :: 0 <= i < |r| ==>
              r[i] == products[i].(sizes := r[i].sizes) && |r[i].sizes| == |products[i].sizes|
    ensures forall i, j :: 0 <= i < |r| && 0 <= j < |r[i].sizes| ==>
              r[i].sizes[j] == if products[i].sizes[j].id == sizeId
                               then products[i].sizes[j].(soldQuantity := products[i].sizes[j].soldQuantity + quantity)
                               else products[i].sizes[j]
  {
    seq(|products|, i requires 0 <= i < |products| =>
      products[i].(sizes := seq(|products[i].sizes|, j requires 0 <= j < |products[i].sizes| =>
        SellSize(products[i].sizes[j], sizeId, quantity))))
  }

  /** A sale that fits the stock of its size keeps the whole stock valid. */
  lemma SellKeepsStock(products: seq<Product>, sizeId: string, quantity: int)
    requires StockValid(products) && quantity >= 0 && !Oversells(products, sizeId, quantity)
    ensures StockValid(SoldApplied(products, sizeId, quantity))
  {
    var r := SoldApplied(products, sizeId, quantity);
    forall i, j | 0 <= i < |r| && 0 <= j < |r[i].sizes|
      ensures SizeValid(r[i].sizes[j])
    {
      assert SizeValid(products[i].sizes[j]);
    }
  }

  /** Whether a sale is of one of the sizes of `p`. */
  predicate Owns(p: Product, s: Sale) { HasSize(p, s.sizeId) }

  /** Revenue of the sales of `p` in `history`. */
  function OwnedRevenue(p: Product, history: seq<Sale>): int {
    if |history| == 0 then 0
    else
      var s := history[|history| - 1];
      OwnedRevenue(p, history[..|history| - 1]) + (if Owns(p, s) then s.salePrice * s.quantity else 0)
  }

  /** Units sold of `p` in `history`. */
  function OwnedUnits(p: Product, history: seq<Sale>): int {
    if |history| == 0 then 0
    else
      var s := history[|history| - 1];
      OwnedUnits(p, history[..|history| - 1]) + (if Owns(p, s) then s.quantity else 0)
  }

  /** Number of sales of `p` in `history`. */
  function OwnedCount(p: Product, history: seq<Sale>): nat {
    if |history| == 0 then 0
    else OwnedCount(p, history[..|history| - 1]) + (if Owns(p, history[|history| - 1]) then 1 else 0)
  }

  /**
   * The average sale price of a product that has size `sizeId`, over its sales in
   * `history`: revenue divided by units, or none when no units were sold. Other
   * products, and a product without sales, keep the average they had.
   */
  function WithAverage(p: Product, sizeId: string, history: seq<Sale>): Product {
    if !HasSize(p, sizeId) || OwnedCount(p, history) == 0 then p
    else if OwnedUnits(p, history) > 0 then
      p.(avgSalePrice := Some(OwnedRevenue(p, history) as real / OwnedUnits(p, history) as real))
    else p.(avgSalePrice := None)
  }

  function AveragesApplied(products: seq<Product>, sizeId: string, history: seq<Sale>): (r: seq<Product>)
    ensures |r| == |products|
    ensures forall i :: 0 <= i < |r| ==> r[i] == products[i].(avgSalePrice := r[i].avgSalePrice)
    ensures forall i :: 0 <= i < |r| ==> r[i] == WithAverage(products[i], sizeId, history)
  {
    seq(|products|, i requires 0 <= i < |products| => WithAverage(products[i], sizeId, history))
  }

  /** Every recorded sale is of at least one unit. */
  predicate SalesValid(sales: seq<Sale>) {
    forall k :: 0 <= k < |sales| ==> sales[k].quantity >= 1
  }

  // ---------------------------------------------------------------- ledger

  /** Units of size `sizeId` that the sale history records as sold. */
  function SoldBySales(sales: seq<Sale>, sizeId: string): int {
    if |sales| == 0 then 0
    else (if sales[0].sizeId == sizeId then sales[0].quantity else 0) + SoldBySales(sales[1..], sizeId)
  }

  /** The second ledger invariant: every size has sold exactly the units its recorded sales add up to. */
  predicate Ledger(products: seq<Product>, sales: seq<Sale>) {
    forall i, j :: 0 <= i < |products| && 0 <= j < |products[i].sizes| ==>
      products[i].sizes[j].soldQuantity == SoldBySales(sales, products[i].sizes[j].id)
  }

  /** No recorded sale is of a size whose id is stamped with `now`: ids taken from the clock are new. */
  ghost predicate StampUnused(sales: seq<Sale>, now: int) {
    forall k, i: nat :: 0 <= k < |sales| ==> sales[k].sizeId != SizeId(now, i)
  }

  /** With the stamp unused, the sizes created at `now` have no sales yet. */
  lemma {:induction false} NothingSoldOfNewSize(sales: seq<Sale>, now: int, i: nat)
    requires StampUnused(sales, now)
    ensures SoldBySales(sales, SizeId(now, i)) == 0
    ensures SalesOf(sales, SizeId(now, i)) == []
  {
    if |sales| > 0 {
      assert sales[0].sizeId != SizeId(now, i);
      assert forall k :: 0 <= k < |sales| - 1 ==> sales[1..][k] == sales[k + 1];
      NothingSoldOfNewSize(sales[1..], now, i);
    }
    NoSalesOf(sales, SizeId(now, i));
  }

  lemma {:induction false} NoSalesOf(sales: seq<Sale>, sizeId: string)
    requires forall k :: 0 <= k < |sales| ==> sales[k].sizeId != sizeId
    ensures SalesOf(sales, sizeId) == []
  {
    if |sales| > 0 {
      NoSalesOf(sales[..|sales| - 1], sizeId);
    }
  }

  /** A product created under an unused stamp joins the front of the store and keeps the ledger. */
  lemma CreateKeepsLedger(products: seq<Product>, sales: seq<Sale>, data: ProductData, now: int)
    requires Ledger(products, sales) && Stockable(CreateRequests(data)) && StampUnused(sales, now)
    ensures Ledger([NewProduct(data, now)] + products, sales)
  {
    var r := [NewProduct(data, now)] + products;
    forall i, j | 0 <= i < |r| && 0 <= j < |r[i].sizes|
      ensures r[i].sizes[j].soldQuantity == SoldBySales(sales, r[i].sizes[j].id)
    {
      if i == 0 {
        NothingSoldOfNewSize(sales, now, j);
      } else {
        assert r[i] == products[i - 1];
      }
    }
  }

  /** Recording a sale adds its units to its own size and to no other. */
  lemma RecordSale(sale: Sale, sales: seq<Sale>, sizeId: string)
    ensures SoldBySales([sale] + sales, sizeId)
         == SoldBySales(sales, sizeId) + (if sale.sizeId == sizeId then sale.quantity else 0)
  {
    assert ([sale] + sales)[1..] == sales;
  }

  /** A sale applied to the stock and recorded in the history keeps the ledger. */
  lemma SaleKeepsLedger(products: seq<Product>, sales: seq<Sale>, sale: Sale)
    requires Ledger(products, sales)
    ensures Ledger(SoldApplied(products, sale.sizeId, sale.quantity), [sale] + sales)
  {
    var r := SoldApplied(products, sale.sizeId, sale.quantity);
    forall i, j | 0 <= i < |r| && 0 <= j < |r[i].sizes|
      ensures r[i].sizes[j].soldQuantity == SoldBySales([sale] + sales, r[i].sizes[j].id)
    {
      RecordSale(sale, sales, products[i].sizes[j].id);
    }
  }

  lemma {:induction false} OwnedUnitsBound(p: Product, history: seq<Sale>)
    requires SalesValid(history)
    ensures OwnedUnits(p, history) >= OwnedCount(p, history)
  {
    if |history| > 0 {
      OwnedUnitsBound(p, history[..|history| - 1]);
    }
  }

  lemma OwnedCountLast(p: Product, history: seq<Sale>, s: Sale)
    requires Owns(p, s)
    ensures OwnedCount(p, history + [s]) >= 1
  {
    assert (history + [s])[..|history|] == history;
  }

  /**
   * Right after a sale of size `s.sizeId`, the product owning that size has an
   * average: its revenue over its units sold.
   */
  lemma AverageAfterSale(p: Product, history: seq<Sale>, s: Sale)
    requires SalesValid(history + [s]) && HasSize(p, s.sizeId)
    ensures OwnedUnits(p, history + [s]) > 0
    ensures WithAverage(p, s.sizeId, history + [s]).avgSalePrice
         == Some(OwnedRevenue(p, history + [s]) as real / OwnedUnits(p, history + [s]) as real)
  {
    OwnedCountLast(p, history, s);
    OwnedUnitsBound(p, history + [s]);
  }

  /** With every owned sale priced between `lo` and `hi`, revenue lies between `lo` and `hi` per unit. */
  lemma {:induction false} RevenueBounds(p: Product, history: seq<Sale>, lo: int, hi: int)
    requires forall k :: 0 <= k < |history| ==> history[k].quantity >= 0
    requires forall k :: 0 <= k < |history| && Owns(p, history[k]) ==> lo <= history[k].salePrice <= hi
    ensures lo * OwnedUnits(p, history) <= OwnedRevenue(p, history) <= hi * OwnedUnits(p, history)
  {
    if |history| > 0 {
      var s := history[|history| - 1];
      var prefix := history[..|history| - 1];
      RevenueBounds(p, prefix, lo, hi);
      if Owns(p, s) {
        assert lo * s.quantity <= s.salePrice * s.quantity <= hi * s.quantity by {
          assert 0 <= (s.salePrice - lo) * s.quantity;
          assert 0 <= (hi - s.salePrice) * s.quantity;
        }
      }
    }
  }

  /** The average sale price lies between the cheapest and the dearest sale of the product. */
  lemma AverageWithinPrices(p: Product, sizeId: string, history: seq<Sale>, lo: int, hi: int)
    requires forall k :: 0 <= k < |history| ==> history[k].quantity >= 0
    requires forall k :: 0 <= k < |history| && Owns(p, history[k]) ==> lo <= history[k].salePrice <= hi
    requires WithAverage(p, sizeId, history).avgSalePrice != p.avgSalePrice
    requires WithAverage(p, sizeId, history).avgSalePrice.Some?
    ensures lo as real <= WithAverage(p, sizeId, history).avgSalePrice.value <= hi as real
  {
    RevenueBounds(p, history, lo, hi);
    var units := OwnedUnits(p, history);
    var rev := OwnedRevenue(p, history);
    assert units > 0 && WithAverage(p, sizeId, history).avgSalePrice.value == rev as real / units as real;
    QuotientBounds(lo, hi, rev, units);
  }

  lemma QuotientBounds(lo: int, hi: int, rev: int, units: int)
    requires units > 0 && lo * units <= rev <= hi * units
    ensures lo as real <= rev as real / units as real <= hi as real
  {
    assert lo as real * units as real <= rev as real <= hi as real * units as real;
  }

  // ---------------------------------------------------------------- fetch

  /** A sale as the detail page lists it under its size. */
  datatype SaleView = SaleView(id: string, salePrice: int, quantity: int, soldAt: int, notes: Option<string>)

  datatype SizeView = SizeView(size: Size, sales: seq<SaleView>)

  datatype ProductView = ProductView(product: Product, sizes: seq<SizeView>)

  function ViewOf(s: Sale): SaleView { SaleView(s.id, s.salePrice, s.quantity, s.soldAt, s.notes) }

  /** The sales of size `sizeId`, in history order. */
  function SalesOf(sales: seq<Sale>, sizeId: string): (r: seq<SaleView>)
    ensures |r| <= |sales|
    ensures forall v :: v in r <==> exists k :: 0 <= k < |sales| && sales[k].sizeId == sizeId && ViewOf(sales[k]) == v
  {
    if |sales| == 0 then []
    else
      var rest := SalesOf(sales[..|sales| - 1], sizeId);
      var s := sales[|sales| - 1];
      assert forall k :: 0 <= k < |sales| - 1 ==> sales[k] == sales[..|sales| - 1][k];
      if s.sizeId == sizeId then rest + [ViewOf(s)] else rest
  }

  /** The filter keeps history order: the sales of `a + b` are those of `a`, then those of `b`. */
  lemma {:induction false} SalesOfAppend(a: seq<Sale>, b: seq<Sale>, sizeId: string)
    ensures SalesOf(a + b, sizeId) == SalesOf(a, sizeId) + SalesOf(b, sizeId)
  {
    if |b| == 0 {
      assert a + b == a;
    } else {
      var init := b[..|b| - 1];
      var last := b[|b| - 1];
      var tail := if last.sizeId == sizeId then [ViewOf(last)] else [];
      SalesOfAppend(a, init, sizeId);
      assert (a + b)[..|a + b| - 1] == a + init;
      assert SalesOf(a + b, sizeId) == SalesOf(a + init, sizeId) + tail;
      assert SalesOf(b, sizeId) == SalesOf(init, sizeId) + tail;
    }
  }

  /** The first product with `productId`, deleted or not. */
  function FindProduct(products: seq<Product>, productId: string): (r: Option<Product>)
    ensures r.Some? ==> exists i :: 0 <= i < |products| && products[i] == r.value
                                    && r.value.id == productId
                                    && forall k :: 0 <= k < i ==> products[k].id != productId
    ensures r.None? <==> forall i :: 0 <= i < |products| ==> products[i].id != productId
  {
    if |products| == 0 then None
    else if products[0].id == productId then Some(products[0])
    else
      assert forall i :: 1 <= i < |products| ==> products[i] == products[1..][i - 1];
      FindProduct(products[1..], productId)
  }

  /**
   * Loading a product right after creating it finds that product, with every
   * size holding the stock asked for, nothing sold and no sales listed.
   */
  lemma CreatedIsFetched(products: seq<Product>, sales: seq<Sale>, data: ProductData, now: int)
    requires Stockable(CreateRequests(data)) && StampUnused(sales, now)
    ensures var p := NewProduct(data, now);
            FindProduct([p] + products, p.id) == Some(p)
            && |p.sizes| == |CreateRequests(data)|
            && forall j :: 0 <= j < |p.sizes| ==>
                 p.sizes[j].size == CreateRequests(data)[j].size
                 && p.sizes[j].totalQuantity == CreateRequests(data)[j].quantity.value
                 && p.sizes[j].soldQuantity == 0
                 && SalesOf(sales, p.sizes[j].id) == []
  {
    var p := NewProduct(data, now);
    forall j | 0 <= j < |p.sizes|
      ensures SalesOf(sales, p.sizes[j].id) == []
    {
      NothingSoldOfNewSize(sales, now, j);
    }
  }

  datatype PeriodType = Week | Month | Year

  /** How many weeks, months and years back the period view looks; 0 is the current one. */
  datatype Offsets = Offsets(week: int, month: int, year: int) {
    function Get(t: PeriodType): int {
      match t
      case Week => week
      case Month => month
      case Year => year
    }

    function Set(t: PeriodType, v: int): (r: Offsets)
      ensures r.Get(t) == v
      ensures forall u :: u != t ==> r.Get(u) == Get(u)
      ensures NotInFuture() && v <= 0 ==> r.NotInFuture()
    {
      match t
      case Week => this.(week := v)
      case Month => this.(month := v)
      case Year => this.(year := v)
    }

    predicate NotInFuture() { week <= 0 && month <= 0 && year <= 0 }
  }

  /** `Math.min(0, offset + direction)`: a step through the periods that never passes the current one. */
  function Navigated(offset: int, direction: int): (r: int)
    ensures r <= 0
    ensures offset + direction <= 0 ==> r == offset + direction
    ensures offset + direction > 0 ==> r == 0
  {
    if offset + direction < 0 then offset + direction else 0
  }

  /** The products and sales of the demo, with the operations the pages call. */
  class ProductStore {
    var products: seq<Product>
    var sales: seq<Sale>

    ghost predicate Valid()
      reads this
    {
      StockValid(products) && SalesValid(sales) && Ledger(products, sales)
    }

    constructor(products0: seq<Product>, sales0: seq<Sale>)
      requires StockValid(products0) && SalesValid(sales0) && Ledger(products0, sales0)
      ensures Valid()
      ensures products == products0 && sales == sales0
    {
      products := products0;
      sales := sales0;
    }

    /** `createProduct`: the new product goes to the front of the list. */
    method CreateProduct(data: ProductData, now: int) returns (p: Product)
      requires Valid() && Stockable(CreateRequests(data)) && StampUnused(sales, now)
      modifies this
      ensures Valid()
      ensures p == NewProduct(data, now)
      ensures products == [p] + old(products) && sales == old(sales)
      ensures FetchProductById(p.id).Some? && FetchProductById(p.id).value.product == p
      ensures forall j :: 0 <= j < |p.sizes| ==> FetchProductById(p.id).value.sizes[j].sales == []
    {
      p := NewProduct(data, now);
      CreatedIsFetched(products, sales, data, now);
      CreateKeepsLedger(products, sales, data, now);
      products := [p] + products;
    }

    /** `updateProduct`: every product with the id is rewritten, the others are left alone. */
    method UpdateProduct(productId: string, data: ProductData, now: int)
      requires Valid() && NonNegativeRequests(data.sizes.GetOr([])) && StampUnused(sales, now)
      modifies this
      ensures Valid()
      ensures |products| == |old(products)| && sales == old(sales)
      ensures forall i :: 0 <= i < |products| ==>
                products[i] == if old(products)[i].id == productId then UpdatedProduct(old(products)[i], data, now)
                               else old(products)[i]
    {
      var before := products;
      products := seq(|before|, i requires 0 <= i < |before| =>
        if before[i].id == productId then UpdatedProduct(before[i], data, now) else before[i]);
      forall i | 0 <= i < |products|
        ensures SizesValid(products[i].sizes)
      {
        assert SizesValid(before[i].sizes);
      }
      forall i, j | 0 <= i < |products| && 0 <= j < |products[i].sizes|
        ensures products[i].sizes[j].soldQuantity == SoldBySales(sales, products[i].sizes[j].id)
      {
        if before[i].id == productId {
          EditKeepsLedger(before[i].sizes, data.sizes.GetOr([]), sales, now, j);
        }
      }
    }

    /** `deleteProduct`: a soft delete; the product stays in the store, stamped. */
    method DeleteProduct(productId: string, now: int)
      requires Valid()
      modifies this
      ensures Valid()
      ensures products == MarkDeleted(old(products), productId, now) && sales == old(sales)
    {
      products := MarkDeleted(products, productId, now);
      assert forall i :: 0 <= i < |products| ==> products[i].sizes == old(products)[i].sizes;
    }

    /**
     * `sellProductSize`: refused when the size has too little stock left; otherwise
     * the size's sold count goes up, the sale is recorded at the front of the
     * history, and the owning product's average is taken over the history
     * including the new sale.
     */
    method SellProductSize(sizeId: string, salePrice: int, quantity: int, notes: Option<string>, now: int)
      returns (r: Result<Sale, string>)
      requires Valid() && quantity >= 1
      modifies this
      ensures Valid()
      ensures r.Failure? <==> Oversells(old(products), sizeId, quantity)
      ensures r.Failure? ==> r.error == NotEnoughStock && products == old(products) && sales == old(sales)
      ensures r.Success? ==>
                r.value == Sale(SaleId(now), sizeId, salePrice, quantity, now, notes)
                && sales == [r.value] + old(sales)
                && products == AveragesApplied(SoldApplied(old(products), sizeId, quantity), sizeId,
                                               old(sales) + [r.value])
    {
      if Oversells(products, sizeId, quantity) {
        return Failure(NotEnoughStock);
      }
      var sold := SoldApplied(products, sizeId, quantity);
      SellKeepsStock(products, sizeId, quantity);
      var sale := Sale(SaleId(now), sizeId, salePrice, quantity, now, notes);
      SaleKeepsLedger(products, sales, sale);
      var history := sales + [sale];
      sales := [sale] + sales;
      products := AveragesApplied(sold, sizeId, history);
      assert forall i :: 0 <= i < |products| ==> products[i].sizes == sold[i].sizes;
      r := Success(sale);
    }

    /** `fetchProductById`: the product, deleted or not, with each size's sales attached. */
    function FetchProductById(productId: string): (r: Option<ProductView>)
      reads this
      ensures r.None? <==> forall i :: 0 <= i < |products| ==> products[i].id != productId
      ensures r.Some? ==> Some(r.value.product) == FindProduct(products, productId)
      ensures r.Some? ==>
                r.value.product.id == productId && r.value.product in products
                && |r.value.sizes| == |r.value.product.sizes|
                && forall j :: 0 <= j < |r.value.sizes| ==>
                     r.value.sizes[j].size == r.value.product.sizes[j]
                     && r.value.sizes[j].sales == SalesOf(sales, r.value.product.sizes[j].id)
    {
      match FindProduct(products, productId)
      case None => None
      case Some(p) =>
        var history := sales;
        Some(ProductView(p, seq(|p.sizes|, j requires 0 <= j < |p.sizes| =>
          SizeView(p.sizes[j], SalesOf(history, p.sizes[j].id)))))
    }
  }

  /**
   * The statistics view. Its figures are computed from the demo's seed data as it
   * was when the module loaded (`MOCK_PRODUCTS`, `MOCK_SALES`), not from the live
   * product store; only the starting budget changes them.
   */
  class StatsStore {
    const seedProducts: seq<Product>
    const seedSales: seq<Sale>
    var startingBudget: int
    var stats: Accounting.Stats
    var periodEarnings: Periods.PeriodEarnings
    var offsets: Offsets

    ghost predicate Valid()
      reads this
    {
      offsets.NotInFuture()
      && stats == Accounting.Figures(seedProducts, seedSales, startingBudget)
    }

    /** The earnings of the periods the offsets select, as of `now`. */
    ghost predicate ShowsPeriods(now: int)
      reads this
    {
      periodEarnings == Periods.EarningsAt(seedProducts, seedSales, now, offsets.week, offsets.month, offsets.year)
    }

    constructor(products: seq<Product>, sales: seq<Sale>, budget: int, now: int)
      ensures Valid() && ShowsPeriods(now)
      ensures seedProducts == products && seedSales == sales && startingBudget == budget
      ensures offsets == Offsets(0, 0, 0)
    {
      seedProducts, seedSales := products, sales;
      startingBudget := budget;
      offsets := Offsets(0, 0, 0);
      new;
      Refetch(now);
    }

    /** `refetch`: both the figures and the selected periods are computed again. */
    method Refetch(now: int)
      requires offsets.NotInFuture()
      modifies this
      ensures Valid() && ShowsPeriods(now)
      ensures startingBudget == old(startingBudget) && offsets == old(offsets)
    {
      var figures := Accounting.CalculateStats(seedProducts, seedSales, startingBudget);
      var earnings := Periods.CalculatePeriodEarnings(seedProducts, seedSales, now, offsets.week, offsets.month, offsets.year);
      stats, periodEarnings := figures, earnings;
    }

    /** `navigatePeriod`: one step back or forth, never past the current period. */
    method NavigatePeriod(t: PeriodType, direction: int, now: int)
      requires Valid()
      modifies this
      ensures Valid() && ShowsPeriods(now)
      ensures offsets.Get(t) == Navigated(old(offsets).Get(t), direction)
      ensures forall u :: u != t ==> offsets.Get(u) == old(offsets).Get(u)
      ensures stats == old(stats) && startingBudget == old(startingBudget)
    {
      var moved := offsets.Set(t, Navigated(offsets.Get(t), direction));
      ShowPeriods(moved, now);
    }

    /** `resetPeriod`: back to the current period of that kind. */
    method ResetPeriod(t: PeriodType, now: int)
      requires Valid()
      modifies this
      ensures Valid() && ShowsPeriods(now)
      ensures offsets.Get(t) == 0
      ensures forall u :: u != t ==> offsets.Get(u) == old(offsets).Get(u)
      ensures stats == old(stats) && startingBudget == old(startingBudget)
    {
      var reset := offsets.Set(t, 0);
      ShowPeriods(reset, now);
    }

    /** Selects the periods at `selected` and computes their earnings. */
    method ShowPeriods(selected: Offsets, now: int)
      modifies this
      ensures offsets == selected && ShowsPeriods(now)
      ensures stats == old(stats) && startingBudget == old(startingBudget)
    {
      var earnings := Periods.CalculatePeriodEarnings(seedProducts, seedSales, now, selected.week, selected.month, selected.year);
      offsets, periodEarnings := selected, earnings;
    }

    /** `updateStartingBudget`: the new budget moves the wallet by the same amount, nothing else. */
    method UpdateStartingBudget(amount: int)
      requires Valid()
      modifies this
      ensures Valid()
      ensures startingBudget == amount
      ensures stats.walletBalance - old(stats.walletBalance) == amount - old(startingBudget)
      ensures stats.totalEarned == old(stats.totalEarned) && stats.totalInvested == old(stats.totalInvested)
      ensures stats.netProfit == old(stats.netProfit)
      ensures offsets == old(offsets) && periodEarnings == old(periodEarnings)
    {
      startingBudget := amount;
      stats := Accounting.CalculateStats(seedProducts, seedSales, startingBudget);
    }
  }
}

/**
 * The overview statistics (`calculateMockStats`): what is invested in stock, what
 * has been earned, what the unsold stock is worth and the resulting profit and
 * wallet balance. Everything but the earnings is taken over active products only;
 * the earnings are taken over every sale, whatever became of its product.
 */
module Accounting {
  import opened Inventory

  datatype Stats = Stats(
    totalInvested: int,
    totalEarned: int,
    inventoryValue: int,
    totalProducts: int,
    totalItemsSold: int,
    totalItemsAvailable: int,
    startingBudget: int,
    walletBalance: int,
    netProfit: int)

  /** The per-size quantities the statistics add up. */
  datatype Figure = Invested | ItemsSold | ItemsAvailable | InventoryValue | Units | CostOfSold

  /** The contribution of one size, bought at `price` per unit, to a figure. */
  function SizeFigure(f: Figure, price: int, s: Size): int {
    match f
    case Invested => price * s.totalQuantity
    case ItemsSold => s.soldQuantity
    case ItemsAvailable => s.totalQuantity - s.soldQuantity
    case InventoryValue => price * (s.totalQuantity - s.soldQuantity)
    case Units => s.totalQuantity
    case CostOfSold => price * s.soldQuantity
  }

  /** A figure summed over a product's sizes. */
  function SizesFigure(f: Figure, price: int, sizes: seq<Size>): int {
    if |sizes| == 0 then 0
    else SizesFigure(f, price, sizes[..|sizes| - 1]) + SizeFigure(f, price, sizes[|sizes| - 1])
  }

  /** A figure summed over the sizes of the active products. */
  function ActiveFigure(f: Figure, products: seq<Product>): int {
    if |products| == 0 then 0
    else
      var p := products[|products| - 1];
      ActiveFigure(f, products[..|products| - 1]) + (if IsActive(p) then SizesFigure(f, p.purchasePrice, p.sizes) else 0)
  }

  /** The number of active products. */
  function ActiveCount(products: seq<Product>): int {
    if |products| == 0 then 0
    else ActiveCount(products[..|products| - 1]) + (if IsActive(products[|products| - 1]) then 1 else 0)
  }

  /** Revenue of a list of sales: price times quantity, summed. */
  function Earned(sales: seq<Sale>): int {
    if |sales| == 0 then 0
    else Earned(sales[..|sales| - 1]) + sales[|sales| - 1].salePrice * sales[|sales| - 1].quantity
  }

  /**
   * The statistics as the sums they are meant to be. The wallet holds the starting
   * budget less what was invested plus what was earned; the net profit is the
   * earnings less what the sold units cost.
   */
  function Figures(products: seq<Product>, sales: seq<Sale>, startingBudget: int): (r: Stats)
    ensures r.totalItemsSold + r.totalItemsAvailable == ActiveFigure(Units, products)
    ensures r.netProfit == r.totalEarned - ActiveFigure(CostOfSold, products)
    ensures r.walletBalance - r.startingBudget == r.totalEarned - r.totalInvested
    ensures r.netProfit == r.walletBalance - r.startingBudget + r.inventoryValue
  {
    SoldPlusAvailable(products);
    InvestedMinusInventory(products);
    var invested := ActiveFigure(Invested, products);
    var earned := Earned(sales);
    var inventory := ActiveFigure(InventoryValue, products);
    Stats(
      invested, earned, inventory, ActiveCount(products),
      ActiveFigure(ItemsSold, products), ActiveFigure(ItemsAvailable, products),
      startingBudget, startingBudget - invested + earned, earned - (invested - inventory))
  }

  /**
   * `calculateMockStats`: one pass over the products (and, for the active ones,
   * over their sizes) and one pass over the sales, accumulating as it goes.
   */
  method CalculateStats(products: seq<Product>, sales: seq<Sale>, startingBudget: int) returns (r: Stats)
    ensures r == Figures(products, sales, startingBudget)
  {
    var totalInvested, totalEarned, inventoryValue := 0, 0, 0;
    var totalProducts, totalItemsSold, totalItemsAvailable := 0, 0, 0;
    var i := 0;
    while i < |products|
      invariant 0 <= i <= |products|
      invariant totalProducts == ActiveCount(products[..i])
      invariant totalInvested == ActiveFigure(Invested, products[..i])
      invariant inventoryValue == ActiveFigure(InventoryValue, products[..i])
      invariant totalItemsSold == ActiveFigure(ItemsSold, products[..i])
      invariant totalItemsAvailable == ActiveFigure(ItemsAvailable, products[..i])
    {
      var product := products[i];
      assert products[..i + 1][..i] == products[..i];
      if product.deletedAt.None? {
        totalProducts := totalProducts + 1;
        var j := 0;
        while j < |product.sizes|
          invariant 0 <= j <= |product.sizes|
          invariant totalInvested == ActiveFigure(Invested, products[..i]) + SizesFigure(Invested, product.purchasePrice, product.sizes[..j])
          invariant inventoryValue == ActiveFigure(InventoryValue, products[..i]) + SizesFigure(InventoryValue, product.purchasePrice, product.sizes[..j])
          invariant totalItemsSold == ActiveFigure(ItemsSold, products[..i]) + SizesFigure(ItemsSold, product.purchasePrice, product.sizes[..j])
          invariant totalItemsAvailable == ActiveFigure(ItemsAvailable, products[..i]) + SizesFigure(ItemsAvailable, product.purchasePrice, product.sizes[..j])
        {
          var size := product.sizes[j];
          assert product.sizes[..j + 1][..j] == product.sizes[..j];
          var totalQty := size.totalQuantity;
          var soldQty := size.soldQuantity;
          var availableQty := totalQty - soldQty;
          totalInvested := totalInvested + product.purchasePrice * totalQty;
          totalItemsSold := totalItemsSold + soldQty;
          totalItemsAvailable := totalItemsAvailable + availableQty;
          inventoryValue := inventoryValue + product.purchasePrice * availableQty;
          j := j + 1;
        }
        assert product.sizes[..j] == product.sizes;
      }
      i := i + 1;
    }
    assert products[..i] == products;

    var k := 0;
    while k < |sales|
      invariant 0 <= k <= |sales|
      invariant totalEarned == Earned(sales[..k])
    {
      assert sales[..k + 1][..k] == sales[..k];
      totalEarned := totalEarned + sales[k].salePrice * sales[k].quantity;
      k := k + 1;
    }
    assert sales[..k] == sales;

    r := Stats(
      totalInvested, totalEarned, inventoryValue, totalProducts, totalItemsSold, totalItemsAvailable,
      startingBudget, startingBudget - totalInvested + totalEarned,
      totalEarned - (totalInvested - inventoryValue));
  }

  lemma {:induction false} SizesSoldPlusAvailable(price: int, sizes: seq<Size>)
    ensures SizesFigure(ItemsSold, price, sizes) + SizesFigure(ItemsAvailable, price, sizes)
         == SizesFigure(Units, price, sizes)
  {
    if |sizes| > 0 {
      SizesSoldPlusAvailable(price, sizes[..|sizes| - 1]);
    }
  }

  /** Items sold plus items available is every unit ever stocked in active products. */
  lemma {:induction false} SoldPlusAvailable(products: seq<Product>)
    ensures ActiveFigure(ItemsSold, products) + ActiveFigure(ItemsAvailable, products)
         == ActiveFigure(Units, products)
  {
    if |products| > 0 {
      var p := products[|products| - 1];
      SoldPlusAvailable(products[..|products| - 1]);
      SizesSoldPlusAvailable(p.purchasePrice, p.sizes);
    }
  }

  lemma {:induction false} SizesInvestedMinusInventory(price: int, sizes: seq<Size>)
    ensures SizesFigure(Invested, price, sizes) - SizesFigure(InventoryValue, price, sizes)
         == SizesFigure(CostOfSold, price, sizes)
  {
    if |sizes| > 0 {
      var s := sizes[|sizes| - 1];
      SizesInvestedMinusInventory(price, sizes[..|sizes| - 1]);
      assert price * s.totalQuantity - price * (s.totalQuantity - s.soldQuantity) == price * s.soldQuantity;
    }
  }

  /**
   * What was invested minus what the unsold stock is worth is the purchase cost of
   * the units sold, so the net profit is the earnings minus that cost.
   */
  lemma {:induction false} InvestedMinusInventory(products: seq<Product>)
    ensures ActiveFigure(Invested, products) - ActiveFigure(InventoryValue, products)
         == ActiveFigure(CostOfSold, products)
  {
    if |products| > 0 {
      var p := products[|products| - 1];
      InvestedMinusInventory(products[..|products| - 1]);
      SizesInvestedMinusInventory(p.purchasePrice, p.sizes);
    }
  }

  lemma {:induction false} SizesInventoryBounds(price: int, sizes: seq<Size>)
    requires price >= 0 && SizesValid(sizes)
    ensures 0 <= SizesFigure(InventoryValue, price, sizes) <= SizesFigure(Invested, price, sizes)
  {
    if |sizes| > 0 {
      var s := sizes[|sizes| - 1];
      assert SizeValid(s);
      SizesInventoryBounds(price, sizes[..|sizes| - 1]);
      assert 0 <= price * (s.totalQuantity - s.soldQuantity) <= price * s.totalQuantity by {
        MulMonotone(price, s.totalQuantity - s.soldQuantity, s.totalQuantity);
      }
    }
  }

  lemma MulMonotone(c: int, a: int, b: int)
    requires c >= 0 && 0 <= a <= b
    ensures 0 <= c * a <= c * b
  {
  }

  /**
   * With non-negative purchase prices and valid stock, the unsold stock is worth
   * between nothing and everything that was invested.
   */
  lemma {:induction false} InventoryBounds(products: seq<Product>)
    requires StockValid(products)
    requires forall i :: 0 <= i < |products| ==> products[i].purchasePrice >= 0
    ensures 0 <= ActiveFigure(InventoryValue, products) <= ActiveFigure(Invested, products)
  {
    if |products| > 0 {
      var p := products[|products| - 1];
      InventoryBounds(products[..|products| - 1]);
      SizesInventoryBounds(p.purchasePrice, p.sizes);
    }
  }

  lemma {:induction false} SizesCountBounds(price: int, sizes: seq<Size>)
    requires SizesValid(sizes)
    ensures SizesFigure(ItemsSold, price, sizes) >= 0 && SizesFigure(ItemsAvailable, price, sizes) >= 0
  {
    if |sizes| > 0 {
      assert SizeValid(sizes[|sizes| - 1]);
      SizesCountBounds(price, sizes[..|sizes| - 1]);
    }
  }

  /** With valid stock, neither the units sold nor the units available are negative. */
  lemma {:induction false} CountBounds(products: seq<Product>)
    requires StockValid(products)
    ensures ActiveFigure(ItemsSold, products) >= 0 && ActiveFigure(ItemsAvailable, products) >= 0
  {
    if |products| > 0 {
      var p := products[|products| - 1];
      CountBounds(products[..|products| - 1]);
      SizesCountBounds(p.purchasePrice, p.sizes);
    }
  }
}

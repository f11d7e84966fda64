/**
 * The entities of the inventory: products with their size variants, and sales.
 * Money is in integer cents, dates are day numbers and timestamps are instants
 * (see module Calendar).
 */
module Inventory {
  import opened Wrappers

  /** A size variant ("M", "42", "One Size", ...) of a product with its stock counts. */
  datatype Size = Size(id: string, size: string, totalQuantity: int, soldQuantity: int)

  datatype Product = Product(
    id: string,
    name: string,
    purchasePrice: int,
    purchaseDate: Option<int>,
    notes: Option<string>,
    imageUrl: Option<string>,
    createdAt: int,
    deletedAt: Option<int>,
    sizes: seq<Size>,
    avgSalePrice: Option<real>,
    salePrice: Option<int>)

  /** A recorded sale of `quantity` units of size `sizeId`, each at `salePrice`. */
  datatype Sale = Sale(id: string, sizeId: string, salePrice: int, quantity: int, soldAt: int, notes: Option<string>)

  /**
   * One size as a form hands it to the store: a new size carries its `quantity`,
   * stock added to a size being edited comes as `additionalQuantity`.
   */
  datatype SizeRequest = SizeRequest(size: string, quantity: Option<int>, additionalQuantity: Option<int>)

  /**
   * The product fields a form submits. `newImage` is the object URL of a newly
   * chosen file, `imageUrl` the image a product being edited already has; a
   * missing `sizes` list is different from an empty one.
   */
  datatype ProductData = ProductData(
    name: string,
    purchasePrice: int,
    purchaseDate: int,
    notes: string,
    newImage: Option<string>,
    imageUrl: Option<string>,
    quantity: Option<int>,
    sizes: Option<seq<SizeRequest>>)

  /** A product is active until it is soft-deleted. */
  predicate IsActive(p: Product) { p.deletedAt.None? }

  /** The stock invariant of one size: nothing is sold that was not in stock. */
  predicate SizeValid(s: Size) { 0 <= s.soldQuantity <= s.totalQuantity }

  predicate SizesValid(sizes: seq<Size>) {
    forall i :: 0 <= i < |sizes| ==> SizeValid(sizes[i])
  }

  predicate StockValid(products: seq<Product>) {
    forall i :: 0 <= i < |products| ==> SizesValid(products[i].sizes)
  }

  /** Whether product `p` has a size with id `sizeId`. */
  predicate HasSize(p: Product, sizeId: string) {
    exists i :: 0 <= i < |p.sizes| && p.sizes[i].id == sizeId
  }

  /** Sum of the total quantities of a list of sizes. */
  function TotalOf(sizes: seq<Size>): int {
    if |sizes| == 0 then 0 else TotalOf(sizes[..|sizes| - 1]) + sizes[|sizes| - 1].totalQuantity
  }

  /** Sum of the sold quantities of a list of sizes. */
  function SoldOf(sizes: seq<Size>): int {
    if |sizes| == 0 then 0 else SoldOf(sizes[..|sizes| - 1]) + sizes[|sizes| - 1].soldQuantity
  }

  /** With every size valid, no more units are sold than were stocked. */
  lemma {:induction false} SoldAtMostTotal(sizes: seq<Size>)
    requires SizesValid(sizes)
    ensures 0 <= SoldOf(sizes) <= TotalOf(sizes)
  {
    if |sizes| > 0 {
      SoldAtMostTotal(sizes[..|sizes| - 1]);
    }
  }
}

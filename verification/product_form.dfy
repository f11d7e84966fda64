/**
 * The add/edit product form: its state, the setters the inputs call, and
 * `handleSubmit`, which validates the fields and turns them into the product data
 * the store receives. Number inputs are held already parsed: `None` stands for an
 * empty field; prices are in cents.
 */
module ProductForm {
  import opened Wrappers
  import opened Text
  import opened Calendar
  import opened Inventory
  import Store
  import SizeManager

  const NameRequired: string := "Productnaam is verplicht"
  const PriceRequired: string := "Inkoopprijs moet groter zijn dan 0"
  const QuantityRequired: string := "Vul aantal in of selecteer maten"

  /** No image, a newly chosen file (by its object URL), or the URL the product already has. */
  datatype FormImage = NoImage | NewFile(objectUrl: string) | ExistingUrl(url: string)

  datatype FormData = FormData(
    name: string,
    purchasePrice: Option<int>,
    purchaseDate: int,
    notes: string,
    image: FormImage,
    quantity: Option<int>,
    additionalQuantity: Option<int>,
    sizes: seq<SizeRequest>)

  /** A form that is filled in as far as `handleSubmit` checks before looking at quantities. */
  predicate DetailsValid(form: FormData) {
    Trim(form.name) != "" && form.purchasePrice.Some? && form.purchasePrice.value > 0
  }

  /** What the `sizes` field becomes on submission. */
  function SubmittedSizes(form: FormData, editMode: bool): seq<SizeRequest>
    requires editMode || |form.sizes| > 0 || form.quantity.Some?
  {
    if |form.sizes| > 0 then form.sizes
    else if editMode then
      var additional := OrElse(form.additionalQuantity, 0);
      if additional > 0 then [SizeRequest(Store.OneSize, None, Some(additional))] else []
    else [SizeRequest(Store.OneSize, Some(form.quantity.value), None)]
  }

  /**
   * `handleSubmit`: a blank name, then a missing or non-positive price, then (when
   * creating without sizes) a missing or non-positive quantity is refused with its
   * message; otherwise the product data is handed on, the date as a calendar day.
   */
  function HandleSubmit(form: FormData, editMode: bool): (r: Result<ProductData, string>)
    ensures Trim(form.name) == "" ==> r == Failure(NameRequired)
    ensures Trim(form.name) != "" && (form.purchasePrice.None? || form.purchasePrice.value <= 0) ==>
              r == Failure(PriceRequired)
    ensures r.Success? <==>
              DetailsValid(form)
              && (editMode || |form.sizes| > 0 || (form.quantity.Some? && form.quantity.value > 0))
    ensures r.Failure? && DetailsValid(form) ==> !editMode && r.error == QuantityRequired
    ensures r.Success? ==>
              r.value.name == form.name && r.value.purchasePrice == form.purchasePrice.value
              && r.value.purchaseDate == DayOf(form.purchaseDate) && r.value.notes == form.notes
              && r.value.quantity == form.quantity && r.value.sizes.Some?
    ensures r.Success? ==> (r.value.newImage.Some? <==> form.image.NewFile?)
    ensures r.Success? && |form.sizes| > 0 ==> r.value.sizes == Some(form.sizes)
    ensures r.Success? && !editMode && |form.sizes| == 0 ==>
              r.value.sizes == Some([SizeRequest(Store.OneSize, form.quantity, None)])
    ensures r.Success? && editMode && |form.sizes| == 0 && OrElse(form.additionalQuantity, 0) > 0 ==>
              r.value.sizes == Some([SizeRequest(Store.OneSize, None, form.additionalQuantity)])
    ensures r.Success? && editMode && |form.sizes| == 0 && OrElse(form.additionalQuantity, 0) <= 0 ==>
              r.value.sizes == Some([])
  {
    if Trim(form.name) == "" then Failure(NameRequired)
    else if form.purchasePrice.None? || form.purchasePrice.value <= 0 then Failure(PriceRequired)
    else if !editMode && |form.sizes| == 0 && (form.quantity.None? || form.quantity.value <= 0) then
      Failure(QuantityRequired)
    else
      Success(ProductData(
        form.name, form.purchasePrice.value, DayOf(form.purchaseDate), form.notes,
        if form.image.NewFile? then Some(form.image.objectUrl) else None, None,
        form.quantity, Some(SubmittedSizes(form, editMode))))
  }

  /** Editing never asks for a quantity: with valid details every edit is submitted. */
  lemma EditNeverNeedsQuantity(form: FormData)
    requires DetailsValid(form)
    ensures HandleSubmit(form, true).Success?
  {
  }

  // ---------------------------------------------------------------- with the store

  /** The stock a submission creates adds up to the quantities of its sizes. */
  lemma {:induction false} TotalMatchesSum(sizes: seq<Size>, order: seq<string>, m: map<string, int>)
    requires |sizes| == |order|
    requires forall l :: l in order ==> l in m
    requires forall i :: 0 <= i < |sizes| ==> sizes[i].totalQuantity == m[order[i]]
    ensures TotalOf(sizes) == SizeManager.Sum(order, m)
  {
    if |sizes| > 0 {
      var n := |sizes| - 1;
      assert forall l :: l in order[..n] ==> l in order;
      TotalMatchesSum(sizes[..n], order[..n], m);
    }
  }

  /** Creating without sizes stocks exactly one "One Size" with the quantity entered. */
  lemma CreateWithQuantity(form: FormData, now: int)
    requires HandleSubmit(form, false).Success? && |form.sizes| == 0
    ensures Store.Stockable(Store.CreateRequests(HandleSubmit(form, false).value))
    ensures Store.NewProduct(HandleSubmit(form, false).value, now).sizes
              == [Size(Store.SizeId(now, 0), Store.OneSize, form.quantity.value, 0)]
  {
  }

  /**
   * Creating from the size editor: the product has one size per selected label, in
   * the editor's order, and its stock is the editor's total.
   */
  lemma CreateFromSelection(form: FormData, selection: SizeManager.Selection, now: int)
    requires SizeManager.WellFormed(selection) && |selection.order| > 0
    requires form.sizes == SizeManager.Notification(selection)
    requires DetailsValid(form)
    ensures HandleSubmit(form, false).Success?
    ensures Store.Stockable(Store.CreateRequests(HandleSubmit(form, false).value))
    ensures var p := Store.NewProduct(HandleSubmit(form, false).value, now);
            |p.sizes| == |selection.order|
            && (forall i :: 0 <= i < |p.sizes| ==>
                  p.sizes[i].size == SizeManager.Listed(selection.order)[i]
                  && p.sizes[i].totalQuantity == selection.quantities[SizeManager.Listed(selection.order)[i]])
            && TotalOf(p.sizes) == SizeManager.TotalItems(selection)
  {
    var data := HandleSubmit(form, false).value;
    assert Store.CreateRequests(data) == SizeManager.Notification(selection);
    SelectionStock(data, selection, now);
  }

  /** Submitted data whose requests are the size editor's notification, as the store stocks it. */
  lemma SelectionStock(data: ProductData, selection: SizeManager.Selection, now: int)
    requires SizeManager.WellFormed(selection)
    requires Store.CreateRequests(data) == SizeManager.Notification(selection)
    ensures Store.Stockable(Store.CreateRequests(data))
    ensures var p := Store.NewProduct(data, now);
            |p.sizes| == |selection.order|
            && (forall i :: 0 <= i < |p.sizes| ==>
                  p.sizes[i].size == SizeManager.Listed(selection.order)[i]
                  && p.sizes[i].totalQuantity == selection.quantities[SizeManager.Listed(selection.order)[i]])
            && TotalOf(p.sizes) == SizeManager.TotalItems(selection)
  {
    var requests := Store.CreateRequests(data);
    SelectionRequests(requests, selection);
    var p := Store.NewProduct(data, now);
    SelectionSizes(p.sizes, requests, selection);
  }

  /** Sizes stocked one per notified request carry the editor's labels, quantities and total. */
  lemma SelectionSizes(sizes: seq<Size>, requests: seq<SizeRequest>, selection: SizeManager.Selection)
    requires SizeManager.WellFormed(selection)
    requires |requests| == |selection.order| && |sizes| == |requests|
    requires forall l :: l in SizeManager.Listed(selection.order) ==> l in selection.quantities
    requires forall i :: 0 <= i < |requests| ==>
               requests[i].size == SizeManager.Listed(selection.order)[i]
               && requests[i].quantity == Some(selection.quantities[SizeManager.Listed(selection.order)[i]])
    requires forall i :: 0 <= i < |sizes| ==>
               sizes[i].size == requests[i].size && sizes[i].totalQuantity == requests[i].quantity.value
    ensures forall i :: 0 <= i < |sizes| ==>
              sizes[i].size == SizeManager.Listed(selection.order)[i]
              && sizes[i].totalQuantity == selection.quantities[SizeManager.Listed(selection.order)[i]]
    ensures TotalOf(sizes) == SizeManager.TotalItems(selection)
  {
    TotalMatchesSum(sizes, SizeManager.Listed(selection.order), selection.quantities);
    SizeManager.SumListed(selection.order, selection.quantities);
  }

  /** The size editor's notification asks for one stockable size per key, in entry order. */
  lemma SelectionRequests(requests: seq<SizeRequest>, selection: SizeManager.Selection)
    requires SizeManager.WellFormed(selection)
    requires requests == SizeManager.Notification(selection)
    ensures Store.Stockable(requests)
    ensures |requests| == |selection.order|
    ensures forall l :: l in SizeManager.Listed(selection.order) ==> l in selection.quantities
    ensures forall i :: 0 <= i < |requests| ==>
              requests[i].size == SizeManager.Listed(selection.order)[i]
              && requests[i].quantity == Some(selection.quantities[SizeManager.Listed(selection.order)[i]])
  {
  }

  /**
   * Editing without sizes but with added stock: the product ends with the single size
   * "One Size", grown by the added units when it had one, new with them otherwise.
   */
  lemma EditAddsStock(form: FormData, p: Product, now: int)
    requires DetailsValid(form) && |form.sizes| == 0 && OrElse(form.additionalQuantity, 0) > 0
    ensures var q := Store.UpdatedProduct(p, HandleSubmit(form, true).value, now);
            |q.sizes| == 1 && q.sizes[0].size == Store.OneSize
            && q.sizes[0].totalQuantity
               == match Store.FindByLabel(p.sizes, Store.OneSize)
                  case Some(e) => e.totalQuantity + form.additionalQuantity.value
                  case None => form.additionalQuantity.value
  {
  }

  /**
   * Editing without sizes and without added stock submits an empty size list, and
   * the store replaces the product's sizes with it: every size is dropped.
   */
  lemma EditWithoutStockDropsSizes(form: FormData, p: Product, now: int)
    requires DetailsValid(form) && |form.sizes| == 0 && OrElse(form.additionalQuantity, 0) <= 0
    ensures Store.UpdatedProduct(p, HandleSubmit(form, true).value, now).sizes == []
  {
  }

  /**
   * When editing, the size editor reports quantities and no added stock, so a
   * selected label the product already has keeps its stock unchanged.
   */
  lemma EditKeepsStockOfKnownSizes(form: FormData, selection: SizeManager.Selection, p: Product, now: int)
    requires SizeManager.WellFormed(selection) && |selection.order| > 0
    requires form.sizes == SizeManager.Notification(selection)
    requires DetailsValid(form)
    ensures var q := Store.UpdatedProduct(p, HandleSubmit(form, true).value, now);
            forall i :: 0 <= i < |q.sizes| ==>
              match Store.FindByLabel(p.sizes, SizeManager.Listed(selection.order)[i])
              case Some(e) => q.sizes[i].totalQuantity == e.totalQuantity
              case None => q.sizes[i].totalQuantity == selection.quantities[SizeManager.Listed(selection.order)[i]]
  {
    var data := HandleSubmit(form, true).value;
    assert data.sizes.GetOr([]) == form.sizes;
  }

  // ---------------------------------------------------------------- the component

  /** The form an edit starts from: the product's details, no quantities, no sizes. */
  function EditForm(p: Product, today: int): FormData {
    FormData(
      p.name,
      if p.purchasePrice != 0 then Some(p.purchasePrice) else None,
      if p.purchaseDate.Some? then Midnight(p.purchaseDate.value) else today,
      p.notes.GetOr(""),
      if p.imageUrl.Some? && p.imageUrl.value != "" then ExistingUrl(p.imageUrl.value) else NoImage,
      None, None, [])
  }

  /**
   * Submitting an edit form unchanged keeps the product's name, price, purchase day
   * and notes, and (having no sizes and no added stock) empties its sizes.
   */
  lemma ResubmitUnchanged(p: Product, today: int, now: int)
    requires Trim(p.name) != "" && p.purchasePrice > 0
    requires p.notes != Some("")
    ensures HandleSubmit(EditForm(p, today), true).Success?
    ensures var q := Store.UpdatedProduct(p, HandleSubmit(EditForm(p, today), true).value, now);
            q.name == p.name && q.purchasePrice == p.purchasePrice && q.notes == p.notes
            && (p.purchaseDate.Some? ==> q.purchaseDate == p.purchaseDate)
            && q.sizes == []
  {
    if p.purchaseDate.Some? {
      DayOfMidnight(p.purchaseDate.value, 0);
    }
  }

  class ProductFormState {
    const editMode: bool
    var form: FormData

    /** The empty form of a new product, dated today. */
    constructor Create(today: int)
      ensures !editMode
      ensures form == FormData("", None, today, "", NoImage, None, None, [])
    {
      editMode := false;
      form := FormData("", None, today, "", NoImage, None, None, []);
    }

    /** The form of a product being edited. */
    constructor Edit(p: Product, today: int)
      ensures editMode && form == EditForm(p, today)
    {
      editMode := true;
      form := EditForm(p, today);
    }

    /** `handleChange` on the name field. */
    method SetName(value: string)
      modifies this
      ensures form == old(form).(name := value)
    {
      form := form.(name := value);
    }

    /** `handleChange` on the purchase price field. */
    method SetPurchasePrice(value: Option<int>)
      modifies this
      ensures form == old(form).(purchasePrice := value)
    {
      form := form.(purchasePrice := value);
    }

    /** `handleChange` on the notes field. */
    method SetNotes(value: string)
      modifies this
      ensures form == old(form).(notes := value)
    {
      form := form.(notes := value);
    }

    /** `handleChange` on the quantity field. */
    method SetQuantity(value: Option<int>)
      modifies this
      ensures form == old(form).(quantity := value)
    {
      form := form.(quantity := value);
    }

    /** `handleChange` on the added-stock field. */
    method SetAdditionalQuantity(value: Option<int>)
      modifies this
      ensures form == old(form).(additionalQuantity := value)
    {
      form := form.(additionalQuantity := value);
    }

    /** `handleImageChange`. */
    method HandleImageChange(image: FormImage)
      modifies this
      ensures form == old(form).(image := image)
    {
      form := form.(image := image);
    }

    /** `handleSizesChange`: the list the size editor reported. */
    method HandleSizesChange(sizes: seq<SizeRequest>)
      modifies this
      ensures form == old(form).(sizes := sizes)
    {
      form := form.(sizes := sizes);
    }

    /** `handleDateChange`. */
    method HandleDateChange(date: int)
      modifies this
      ensures form == old(form).(purchaseDate := date)
    {
      form := form.(purchaseDate := date);
    }
  }
}

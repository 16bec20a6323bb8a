/** The product catalogue page: the form it edits, the row it writes, its
    delete confirmation, and the labels and stock warning of its cards
    (src/pages/Produtos.tsx). */
module Produtos {
  import opened Rows
  import opened NumberText

  /** A row of `products` as the page reads it. */
  datatype Product = Product(
    id: string,
    name: string,
    productType: string,
    description: Option<string>,
    price: int,
    cost: int,
    stockQuantity: int,
    minStockAlert: int,
    active: bool)

  /** `formData`: every number is held as the text of its input. */
  datatype ProductForm = ProductForm(
    name: string,
    productType: string,
    description: string,
    price: string,
    cost: string,
    stockQuantity: string,
    minStockAlert: string,
    active: bool)

  /** What `parseFloat`/`parseInt` gave for the four number inputs at submit time. */
  datatype ParsedNumbers = ParsedNumbers(price: int, cost: int, stockQuantity: int, minStockAlert: int)

  /** `productData`, the row written by a submit. */
  datatype ProductData = ProductData(
    name: string,
    productType: string,
    description: Option<string>,
    price: int,
    cost: int,
    stockQuantity: int,
    minStockAlert: int,
    active: bool)

  /** The request a submit sends: an insert, or an update of the row with that id. */
  datatype ProductWrite = Insert(data: ProductData) | Update(id: string, data: ProductData)

  /** The form of a new product. */
  const DefaultForm: ProductForm := ProductForm("", "procedure", "", "", "", "0", "5", true)

  /** The form `handleEdit` fills from a product: a null description becomes the
      empty text and each number its decimal text. */
  function EditForm(p: Product): (f: ProductForm)
    ensures f.name == p.name && f.productType == p.productType && f.active == p.active
    ensures f.description == "" <==> p.description.None? || p.description == Some("")
    ensures p.description.Some? ==> f.description == p.description.value
    ensures ParseDecimal(f.price) == Some(p.price) && ParseDecimal(f.cost) == Some(p.cost)
    ensures ParseDecimal(f.stockQuantity) == Some(p.stockQuantity)
    ensures ParseDecimal(f.minStockAlert) == Some(p.minStockAlert)
    ensures p.stockQuantity >= 0 ==> AllDigits(f.stockQuantity)
    ensures p.minStockAlert >= 0 ==> AllDigits(f.minStockAlert)
  {
    IntTextRoundTrip(p.price);
    IntTextRoundTrip(p.cost);
    IntTextRoundTrip(p.stockQuantity);
    IntTextRoundTrip(p.minStockAlert);
    ProductForm(
      p.name,
      p.productType,
      if p.description.Some? then p.description.value else "",
      IntToString(p.price),
      IntToString(p.cost),
      IntToString(p.stockQuantity),
      IntToString(p.minStockAlert),
      p.active)
  }

  /** `productData` built from the form: an empty description is stored as null. */
  function ToProductData(form: ProductForm, parsed: ParsedNumbers): (d: ProductData)
    ensures d.description.None? <==> form.description == ""
    ensures d.description.Some? ==> d.description.value == form.description
    ensures d.name == form.name && d.productType == form.productType && d.active == form.active
    ensures d.price == parsed.price && d.cost == parsed.cost
    ensures d.stockQuantity == parsed.stockQuantity && d.minStockAlert == parsed.minStockAlert
  {
    ProductData(
      form.name,
      form.productType,
      if form.description == "" then None else Some(form.description),
      parsed.price,
      parsed.cost,
      parsed.stockQuantity,
      parsed.minStockAlert,
      form.active)
  }

  /** A product's row without its id. */
  function DataOf(p: Product): ProductData
  {
    ProductData(p.name, p.productType, p.description, p.price, p.cost, p.stockQuantity, p.minStockAlert, p.active)
  }

  function NumbersOf(p: Product): ParsedNumbers
  {
    ParsedNumbers(p.price, p.cost, p.stockQuantity, p.minStockAlert)
  }

  /** Opening a product and saving it untouched writes back exactly its row, the
      only exception being an empty description, which comes back as null. */
  lemma EditSubmitRoundTrip(p: Product)
    ensures ToProductData(EditForm(p), NumbersOf(p)) == DataOf(p) <==> p.description != Some("")
    ensures ToProductData(EditForm(p), NumbersOf(p)).description ==
      (if p.description == Some("") then None else p.description)
  {
    var d := ToProductData(EditForm(p), NumbersOf(p));
    if p.description == Some("") {
      assert d.description != DataOf(p).description;
    }
  }

  /** The stock texts of the edit form read back as the stock numbers. */
  lemma StockTextRoundTrip(p: Product)
    requires p.stockQuantity >= 0 && p.minStockAlert >= 0
    ensures DigitsValue(EditForm(p).stockQuantity) == p.stockQuantity
    ensures DigitsValue(EditForm(p).minStockAlert) == p.minStockAlert
  {
    NatToStringRoundTrip(p.stockQuantity);
    NatToStringRoundTrip(p.minStockAlert);
  }

  /** The write a submit issues: an update keyed by the edited product's id, or an insert. */
  function WriteFor(editing: Option<Product>, data: ProductData): (w: ProductWrite)
    ensures w.data == data
    ensures w.Update? <==> editing.Some?
    ensures w.Update? ==> w.id == editing.value.id
  {
    match editing
    case Some(p) => Update(p.id, data)
    case None => Insert(data)
  }

  /** A new product saved with the default form is an active procedure with no
      description, whose stock and alert are the numbers its texts "0" and "5"
      denote; its price and cost texts are empty and denote no number. */
  lemma NewProductDefaults(parsed: ParsedNumbers)
    requires Some(parsed.stockQuantity) == ParseDecimal(DefaultForm.stockQuantity)
    requires Some(parsed.minStockAlert) == ParseDecimal(DefaultForm.minStockAlert)
    ensures WriteFor(None, ToProductData(DefaultForm, parsed)) ==
      Insert(ProductData("", "procedure", None, parsed.price, parsed.cost, 0, 5, true))
    ensures ParseDecimal(DefaultForm.price).None? && ParseDecimal(DefaultForm.cost).None?
  {
    assert AllDigits("0") && AllDigits("5");
    assert DigitsValue("0") == DigitsValue([]) * 10 + DigitValue('0') == 0;
    assert DigitsValue("5") == DigitsValue([]) * 10 + DigitValue('5') == 5;
  }

  /** Medication and products keep stock; the form shows the stock inputs and the
      card the stock line only for them. */
  predicate TracksStock(productType: string)
  {
    productType == "medication" || productType == "product"
  }

  /** The low-stock warning of a product card. */
  function LowStock(p: Product): (low: bool)
    ensures low ==> TracksStock(p.productType)
    ensures TracksStock(p.productType) ==> (low <==> p.stockQuantity <= p.minStockAlert)
  {
    TracksStock(p.productType) && p.stockQuantity <= p.minStockAlert
  }

  /** Selling from a product that already warns keeps the warning, restocking past
      the alert level clears it, and services never warn. */
  lemma LowStockAfterStockChange(p: Product, newStock: int)
    ensures LowStock(p) && newStock <= p.stockQuantity ==> LowStock(p.(stockQuantity := newStock))
    ensures newStock > p.minStockAlert ==> !LowStock(p.(stockQuantity := newStock))
    ensures !TracksStock(p.productType) ==> !LowStock(p.(stockQuantity := newStock))
    ensures TracksStock(p.productType) && newStock <= p.minStockAlert ==> LowStock(p.(stockQuantity := newStock))
  {
  }

  const TypeLabels: map<string, string> := map[
    "procedure" := "Procedimento",
    "medication" := "Medicamento",
    "consultation" := "Consulta",
    "product" := "Produto"]

  /** `getTypeLabel`: the label of a known type, the type itself otherwise. */
  function TypeLabel(t: string): (shown: string)
    ensures t in TypeLabels ==> shown == TypeLabels[t]
    ensures shown == t <==> t !in TypeLabels
    ensures shown == "" <==> t == ""
  {
    LookupOr(TypeLabels, t, t)
  }

  const TypeColors: map<string, string> := map[
    "procedure" := "bg-primary/10 text-primary",
    "medication" := "bg-blue-500/10 text-blue-500",
    "consultation" := "bg-green-500/10 text-green-500",
    "product" := "bg-purple-500/10 text-purple-500"]

  const MutedColor := "bg-muted text-muted-foreground"

  /** `getTypeColor`: the colour of a known type, the muted colour otherwise. */
  function TypeColor(t: string): (color: string)
    ensures t in TypeColors ==> color == TypeColors[t]
    ensures color == MutedColor <==> t !in TypeColors
  {
    LookupOr(TypeColors, t, MutedColor)
  }

  /** The options of the form's type select, value and text. */
  const TypeOptions: seq<(string, string)> := [
    ("procedure", "Procedimento"),
    ("medication", "Medicamento"),
    ("consultation", "Consulta"),
    ("product", "Produto")]

  /** The card of a product of any selectable type shows the same text as the
      select option it was created with, and its own colour. */
  lemma OptionsMatchLabels()
    ensures forall o :: o in TypeOptions ==> TypeLabel(o.0) == o.1 && TypeColor(o.0) != MutedColor
    ensures forall t :: t in TypeLabels <==> exists o :: o in TypeOptions && o.0 == t
  {
    forall t | t in TypeLabels
      ensures exists o :: o in TypeOptions && o.0 == t
    {
      assert t == "procedure" || t == "medication" || t == "consultation" || t == "product";
      if t == "procedure" { assert TypeOptions[0].0 == t; }
      else if t == "medication" { assert TypeOptions[1].0 == t; }
      else if t == "consultation" { assert TypeOptions[2].0 == t; }
      else { assert TypeOptions[3].0 == t; }
    }
  }

  /** The page's state: the form, the product being edited, whether the form
      dialog is open, whether a save is under way, and the product whose deletion
      waits for confirmation. */
  class ProductPage {
    var formData: ProductForm
    var editingProduct: Option<Product>
    var showForm: bool
    var loading: bool
    var deleteProductId: Option<string>

    /** A product is only ever edited in an open form, and no save is under way
        between two handlers. */
    predicate Valid()
      reads this
    {
      (editingProduct.Some? ==> showForm) && !loading
    }

    constructor()
      ensures Valid()
      ensures formData == DefaultForm && editingProduct == None
      ensures !showForm && !loading && deleteProductId == None
    {
      formData := DefaultForm;
      editingProduct := None;
      showForm := false;
      loading := false;
      deleteProductId := None;
    }

    /** `resetForm`. */
    method ResetForm()
      modifies this
      ensures formData == DefaultForm && editingProduct == None
      ensures showForm == old(showForm) && loading == old(loading) && deleteProductId == old(deleteProductId)
    {
      formData := DefaultForm;
      editingProduct := None;
    }

    /** The "Novo Produto" button: a fresh form, opened. */
    method OpenNew()
      requires Valid()
      modifies this
      ensures Valid()
      ensures formData == DefaultForm && editingProduct == None && showForm
      ensures deleteProductId == old(deleteProductId)
    {
      ResetForm();
      showForm := true;
    }

    /** `handleEdit`. */
    method HandleEdit(p: Product)
      requires Valid()
      modifies this
      ensures Valid()
      ensures editingProduct == Some(p) && formData == EditForm(p) && showForm
      ensures deleteProductId == old(deleteProductId)
    {
      editingProduct := Some(p);
      formData := EditForm(p);
      showForm := true;
    }

    /** An input of the form changed: the form takes the new values. */
    method ChangeForm(form: ProductForm)
      requires Valid()
      modifies this
      ensures Valid()
      ensures formData == form
      ensures editingProduct == old(editingProduct) && showForm == old(showForm)
      ensures deleteProductId == old(deleteProductId)
    {
      formData := form;
    }

    /** The dialog opened or closed by itself; closing it also resets the form. */
    method OnOpenChange(open: bool)
      requires Valid()
      modifies this
      ensures Valid()
      ensures showForm == open
      ensures open ==> formData == old(formData) && editingProduct == old(editingProduct)
      ensures !open ==> formData == DefaultForm && editingProduct == None
      ensures deleteProductId == old(deleteProductId)
    {
      showForm := open;
      if !open {
        ResetForm();
      }
    }

    /** The "Cancelar" button: close the form and reset it. */
    method Cancel()
      requires Valid()
      modifies this
      ensures Valid()
      ensures !showForm && formData == DefaultForm && editingProduct == None
      ensures deleteProductId == old(deleteProductId)
    {
      showForm := false;
      ResetForm();
    }

    /** `handleSubmit`, given the parsed numbers and whether the store refused the
        write. It returns the write it sent. On success the form is closed and
        reset; on a refusal it stays as it was. Either way the save is over. */
    method HandleSubmit(parsed: ParsedNumbers, storeFails: bool) returns (write: ProductWrite)
      requires Valid()
      modifies this
      ensures Valid()
      ensures write == WriteFor(old(editingProduct), ToProductData(old(formData), parsed))
      ensures !storeFails ==> !showForm && formData == DefaultForm && editingProduct == None
      ensures storeFails ==>
        showForm == old(showForm) && formData == old(formData) && editingProduct == old(editingProduct)
      ensures deleteProductId == old(deleteProductId)
    {
      loading := true;
      var data := ToProductData(formData, parsed);
      write := WriteFor(editingProduct, data);
      if !storeFails {
        showForm := false;
        ResetForm();
      }
      loading := false;
    }

    /** The delete button of a card asks for confirmation of that product. */
    method RequestDelete(id: string)
      requires Valid()
      modifies this
      ensures Valid()
      ensures deleteProductId == Some(id)
      ensures formData == old(formData) && editingProduct == old(editingProduct) && showForm == old(showForm)
    {
      deleteProductId := Some(id);
    }

    /** The confirmation dialog was dismissed. */
    method DismissDelete()
      requires Valid()
      modifies this
      ensures Valid()
      ensures deleteProductId == None
      ensures formData == old(formData) && editingProduct == old(editingProduct) && showForm == old(showForm)
    {
      deleteProductId := None;
    }

    /** `handleDelete`: returns the id whose deletion was sent. Without a pending id
        (none, or the empty text) nothing happens; otherwise the confirmation is
        cleared whatever the store answered. */
    method HandleDelete() returns (deleted: Option<string>)
      requires Valid()
      modifies this
      ensures Valid()
      ensures old(deleteProductId).None? || old(deleteProductId) == Some("") ==>
        deleted == None && deleteProductId == old(deleteProductId)
      ensures old(deleteProductId).Some? && old(deleteProductId) != Some("") ==>
        deleted == old(deleteProductId) && deleteProductId == None
      ensures formData == old(formData) && editingProduct == old(editingProduct) && showForm == old(showForm)
    {
      if deleteProductId.None? || deleteProductId == Some("") {
        return None;
      }
      deleted := deleteProductId;
      deleteProductId := None;
    }
  }
}

/** The admin console's product list: add a product from the form, save the
    product being edited, delete a product. Each change is sent to the store
    first; the held list changes only when the store confirms, and an error
    leaves it as it was. `parseFloat` and `parseInt` are passed in; `None`
    stands for `NaN`. */
module AdminProducts {
  import opened Outcomes
  import opened Products
  import opened Lists

  /** The add-product form: every field is the text typed in. */
  datatype ProductForm = ProductForm(
    title: string,
    description: string,
    price: string,
    image: string,
    category: string,
    stock: string)

  const EmptyForm := ProductForm("", "", "", "", "", "")

  /** The row sent to the store. A price that does not parse is sent as null. */
  datatype ProductRow = ProductRow(
    id: string,
    title: string,
    description: string,
    price: Option<real>,
    image: string,
    category: string,
    stock: int,
    rating: real,
    ratingCount: int)

  /** The guard of `saveProduct`: title, description or price empty, or a
      parsed price of zero or less. A price that does not parse compares
      false with 0, so it is not refused. */
  predicate Refused(form: ProductForm, parseFloat: string -> Option<real>)
  {
    || form.title == ""
    || form.description == ""
    || form.price == ""
    || (parseFloat(form.price).Some? && parseFloat(form.price).value <= 0.0)
  }

  /** The row for a form that passed: a fresh id, the parsed price, the parsed
      stock or 0, and a starting rating of 4.5 from no votes. */
  function InsertRow(freshId: string, form: ProductForm, parseFloat: string -> Option<real>,
                     parseInt: string -> Option<int>): (row: ProductRow)
    ensures row.id == freshId && row.title == form.title && row.description == form.description
    ensures row.image == form.image && row.category == form.category
    ensures row.price == parseFloat(form.price)
    ensures row.stock == (if parseInt(form.stock).Some? then parseInt(form.stock).value else 0)
    ensures row.rating == 4.5 && row.ratingCount == 0
  {
    ProductRow(freshId, form.title, form.description, parseFloat(form.price), form.image, form.category,
               match parseInt(form.stock) case Some(n) => n case None => 0,
               4.5, 0)
  }

  /** What a form that passes the guard can send as its price: nothing at or below zero. */
  lemma AcceptedPrice(form: ProductForm, parseFloat: string -> Option<real>, parseInt: string -> Option<int>, freshId: string)
    requires !Refused(form, parseFloat)
    ensures form.title != "" && form.description != "" && form.price != ""
    ensures var row := InsertRow(freshId, form, parseFloat, parseInt);
            row.price.None? || row.price.value > 0.0
  {
  }

  /** The guard lets a price through that is not a number at all. */
  lemma NonNumericPriceAccepted(form: ProductForm, parseFloat: string -> Option<real>)
    requires form.title != "" && form.description != "" && form.price != ""
    requires parseFloat(form.price).None?
    ensures !Refused(form, parseFloat)
  {
  }

  function ProductIdIs(id: string): Product -> bool
  {
    (p: Product) => p.id == id
  }

  function ProductIdIsNot(id: string): Product -> bool
  {
    (p: Product) => p.id != id
  }

  function Always(row: Product): Product -> Product
  {
    _ => row
  }

  /** `products.map(p => p.id === id ? data : p)`. */
  function ReplaceById(products: seq<Product>, id: string, row: Product): seq<Product>
  {
    MapWhere(products, ProductIdIs(id), Always(row))
  }

  /** `products.filter(p => p.id !== id)`. */
  function DeleteById(products: seq<Product>, id: string): seq<Product>
  {
    Filter(products, ProductIdIsNot(id))
  }

  /** Replacing changes exactly the products with that id, into the returned
      row; the length and every other product stay; an absent id changes nothing. */
  lemma ReplaceByIdSpec(products: seq<Product>, id: string, row: Product)
    ensures var r := ReplaceById(products, id, row);
            && |r| == |products|
            && (forall i :: 0 <= i < |products| && products[i].id == id ==> r[i] == row)
            && (forall i :: 0 <= i < |products| && products[i].id != id ==> r[i] == products[i])
            && ((forall i :: 0 <= i < |products| ==> products[i].id != id) ==> r == products)
  {
  }

  /** Deleting keeps, in order, exactly the products with another id; an absent id changes nothing. */
  lemma DeleteByIdSpec(products: seq<Product>, id: string)
    ensures var r := DeleteById(products, id);
            && IsSubsequence(r, products)
            && (forall p :: p in r <==> p in products && p.id != id)
            && ((forall i :: 0 <= i < |products| ==> products[i].id != id) ==> r == products)
  {
    FilterIsSubsequence(products, ProductIdIsNot(id));
    if forall i :: 0 <= i < |products| ==> products[i].id != id {
      FilterKeepsAll(products, ProductIdIsNot(id));
    }
  }

  /** The product part of the admin page. */
  class AdminConsole {
    var products: seq<Product>
    var editingProduct: Option<Product>
    var newProduct: ProductForm

    constructor (loaded: seq<Product>)
      ensures products == loaded && editingProduct == None && newProduct == EmptyForm
    {
      products := loaded;
      editingProduct := None;
      newProduct := EmptyForm;
    }

    method EditForm(form: ProductForm)
      modifies this
      ensures newProduct == form && products == old(products) && editingProduct == old(editingProduct)
    {
      newProduct := form;
    }

    /** The edit dialog: `Some` opens it on a product, `None` cancels. */
    method SetEditing(product: Option<Product>)
      modifies this
      ensures editingProduct == product && products == old(products) && newProduct == old(newProduct)
    {
      editingProduct := product;
    }

    /** `saveProduct`: a refused form sends nothing. Otherwise the row is sent;
        the row the store returns goes first in the list and the form is
        cleared, while an error leaves list and form as they were. */
    method SaveProduct(freshId: string, parseFloat: string -> Option<real>, parseInt: string -> Option<int>,
                       insert: Response<Product>) returns (sent: Option<ProductRow>)
      modifies this
      ensures editingProduct == old(editingProduct)
      ensures Refused(old(newProduct), parseFloat) ==>
                sent == None && products == old(products) && newProduct == old(newProduct)
      ensures !Refused(old(newProduct), parseFloat) ==>
                sent == Some(InsertRow(freshId, old(newProduct), parseFloat, parseInt))
      ensures !Refused(old(newProduct), parseFloat) && insert.Ok? ==>
                products == [insert.row] + old(products) && newProduct == EmptyForm
      ensures insert.Err? ==> products == old(products) && newProduct == old(newProduct)
    {
      if Refused(newProduct, parseFloat) {
        return None;
      }
      sent := Some(InsertRow(freshId, newProduct, parseFloat, parseInt));
      if insert.Ok? {
        products := [insert.row] + products;
        newProduct := EmptyForm;
      }
    }

    /** `updateProduct`: nothing without a product being edited. Otherwise the
        edited product is sent; on success every product with its id becomes
        the returned row and the dialog closes; on an error nothing changes. */
    method UpdateProduct(update: Response<Product>) returns (sent: Option<Product>)
      modifies this
      ensures newProduct == old(newProduct)
      ensures sent == old(editingProduct)
      ensures old(editingProduct).None? ==> products == old(products) && editingProduct == None
      ensures old(editingProduct).Some? && update.Ok? ==>
                products == ReplaceById(old(products), old(editingProduct).value.id, update.row)
                && editingProduct == None
      ensures update.Err? ==> products == old(products) && editingProduct == old(editingProduct)
    {
      sent := editingProduct;
      if editingProduct.None? {
        return;
      }
      if update.Ok? {
        products := ReplaceById(products, editingProduct.value.id, update.row);
        editingProduct := None;
      }
    }

    /** `deleteProduct`: after the store confirms, drop the products with that id. */
    method DeleteProduct(productId: string, outcome: Ack)
      modifies this
      ensures newProduct == old(newProduct) && editingProduct == old(editingProduct)
      ensures outcome.Done? ==> products == DeleteById(old(products), productId)
      ensures outcome.Failed? ==> products == old(products)
    {
      if outcome.Done? {
        products := DeleteById(products, productId);
      }
    }
  }
}

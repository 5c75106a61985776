/** The products table and its routes: create with validated fields, a
    partial update that replaces only the fields supplied, a delete that only
    deactivates, and the unique SKU index behind them. Prices are integer
    cents. */
module Products {
  import opened Common
  import Auth

  /** The roles admitted by `authorize('supervisor', 'ceo')`. */
  const Managers: seq<Role> := [Supervisor, Ceo]

  /** A Product row. */
  datatype Product = Product(
    name: string,
    sku: string,
    category: string,
    unitPrice: int,
    description: Option<string>,
    imageUrl: Option<string>,
    isActive: bool)

  /** The fields of a PUT body after sanitising; None is a field the body
      leaves undefined. */
  datatype ProductChanges = ProductChanges(
    name: Option<string>,
    sku: Option<string>,
    category: Option<string>,
    unitPrice: Option<int>,
    description: Option<string>,
    imageUrl: Option<string>,
    isActive: Option<bool>)

  /** The validators of POST /products: name, SKU and category non-blank and a
      price of at least zero. */
  predicate CreateFieldsValid(name: string, sku: string, category: string, unitPrice: int) {
    NonBlank(name) && NonBlank(sku) && NonBlank(category) && unitPrice >= 0
  }

  predicate SuppliedNonBlank(s: Option<string>) {
    s.None? || NonBlank(s.value)
  }

  /** The validators of PUT /products/:id: each supplied text field among
      name, SKU and category non-blank, and a supplied price at least zero. */
  predicate UpdateFieldsValid(c: ProductChanges) {
    SuppliedNonBlank(c.name) && SuppliedNonBlank(c.sku) && SuppliedNonBlank(c.category)
    && (c.unitPrice.None? || c.unitPrice.value >= 0)
  }

  /** A truthy (defined, non-empty) text value replaces the stored one. */
  function Truthy(supplied: Option<string>, current: string): (v: string)
    ensures supplied.Some? && supplied.value != [] ==> v == supplied.value
    ensures supplied.None? || supplied.value == [] ==> v == current
  {
    if supplied.Some? && supplied.value != [] then supplied.value else current
  }

  /** The spread merge of `product.update`: name, SKU and category are replaced
      only by truthy values; price, description, image and the active flag are
      replaced whenever they are defined. */
  function Merge(p: Product, c: ProductChanges): (m: Product)
    ensures m.name == Truthy(c.name, p.name)
    ensures m.sku == Truthy(c.sku, p.sku)
    ensures m.category == Truthy(c.category, p.category)
    ensures m.unitPrice == if c.unitPrice.Some? then c.unitPrice.value else p.unitPrice
    ensures m.description == if c.description.Some? then c.description else p.description
    ensures m.imageUrl == if c.imageUrl.Some? then c.imageUrl else p.imageUrl
    ensures m.isActive == if c.isActive.Some? then c.isActive.value else p.isActive
  {
    Product(
      Truthy(c.name, p.name),
      Truthy(c.sku, p.sku),
      Truthy(c.category, p.category),
      if c.unitPrice.Some? then c.unitPrice.value else p.unitPrice,
      if c.description.Some? then c.description else p.description,
      if c.imageUrl.Some? then c.imageUrl else p.imageUrl,
      if c.isActive.Some? then c.isActive.value else p.isActive)
  }

  /** The sanitised PUT body: the text fields trimmed, the rest as sent. */
  function Sanitised(name: Option<string>, sku: Option<string>, category: Option<string>, unitPrice: Option<int>,
                     description: Option<string>, imageUrl: Option<string>, isActive: Option<bool>): (c: ProductChanges)
    ensures c.name == TrimOption(name) && c.sku == TrimOption(sku) && c.category == TrimOption(category)
    ensures c.description == TrimOption(description) && c.imageUrl == TrimOption(imageUrl)
    ensures c.unitPrice == unitPrice && c.isActive == isActive
  {
    ProductChanges(TrimOption(name), TrimOption(sku), TrimOption(category), unitPrice,
                   TrimOption(description), TrimOption(imageUrl), isActive)
  }

  /** A body that defines nothing changes nothing. */
  lemma MergeNothing(p: Product)
    ensures Merge(p, ProductChanges(None, None, None, None, None, None, None)) == p
  {
  }

  /** Sending the same body twice has the effect of sending it once. */
  lemma MergeIdempotent(p: Product, c: ProductChanges)
    ensures Merge(Merge(p, c), c) == Merge(p, c)
  {
  }

  /** After validation every supplied field is taken over as sanitised (the
      truthiness test never drops a validated name, SKU or category), and
      every field the body leaves out keeps its stored value. */
  lemma ValidatedMergeTakesEverySuppliedField(p: Product, c: ProductChanges)
    requires UpdateFieldsValid(c)
    requires c.name.Some? ==> c.name.value == Trim(c.name.value)
    requires c.sku.Some? ==> c.sku.value == Trim(c.sku.value)
    requires c.category.Some? ==> c.category.value == Trim(c.category.value)
    ensures var m := Merge(p, c);
            && (c.name.Some? ==> m.name == c.name.value)
            && (c.sku.Some? ==> m.sku == c.sku.value)
            && (c.category.Some? ==> m.category == c.category.value)
            && (c.unitPrice.Some? ==> m.unitPrice == c.unitPrice.value)
            && (c.description.Some? ==> m.description == c.description)
            && (c.imageUrl.Some? ==> m.imageUrl == c.imageUrl)
            && (c.isActive.Some? ==> m.isActive == c.isActive.value)
            && (c.name.None? ==> m.name == p.name) && (c.sku.None? ==> m.sku == p.sku)
            && (c.category.None? ==> m.category == p.category)
            && (c.unitPrice.None? ==> m.unitPrice == p.unitPrice)
            && (c.description.None? ==> m.description == p.description)
            && (c.imageUrl.None? ==> m.imageUrl == p.imageUrl)
            && (c.isActive.None? ==> m.isActive == p.isActive)
  {
  }

  /** What every stored row satisfies. */
  predicate ProductWellFormed(p: Product) {
    p.name != [] && p.sku != [] && p.category != [] && p.unitPrice >= 0
  }

  /** The unique index on `sku`. */
  predicate UniqueSkus(products: map<Uuid, Product>) {
    forall a, b :: a in products && b in products && a != b ==> products[a].sku != products[b].sku
  }

  /** Whether a product other than `except` already holds `sku`. */
  predicate SkuHeldByOther(products: map<Uuid, Product>, sku: string, except: Uuid) {
    exists other :: other in products && other != except && products[other].sku == sku
  }

  predicate BookValid(products: map<Uuid, Product>) {
    && (forall id :: id in products ==> ProductWellFormed(products[id]))
    && UniqueSkus(products)
  }

  /** Writing a well-formed row whose SKU no other product holds keeps the
      table valid; this covers both create and update. */
  lemma WriteKeepsValid(products: map<Uuid, Product>, id: Uuid, p: Product)
    requires BookValid(products)
    requires ProductWellFormed(p)
    requires !SkuHeldByOther(products, p.sku, id)
    ensures BookValid(products[id := p])
  {
  }

  /** The merge keeps a row well formed whatever the body holds, provided a
      supplied price is at least zero. */
  lemma MergeKeepsWellFormed(p: Product, c: ProductChanges)
    requires ProductWellFormed(p)
    requires c.unitPrice.None? || c.unitPrice.value >= 0
    ensures ProductWellFormed(Merge(p, c))
  {
  }

  class ProductBook {
    var products: map<Uuid, Product>

    ghost predicate Valid()
      reads this
    {
      BookValid(products)
    }

    constructor ()
      ensures Valid() && products == map[]
    {
      products := map[];
    }

    /** GET /products/:id: the product, or 404. */
    function Get(id: Uuid): (r: Result<Product>)
      reads this
      ensures r.Ok? <==> id in products
      ensures r.Err? ==> r.status == NotFound
      ensures r.Ok? ==> r.value == products[id]
    {
      if id in products then Ok(products[id]) else Err(NotFound)
    }

    /** POST /products: supervisors and the CEO create an active product; a
        SKU already in use violates the unique index (409). */
    method Create(caller: User, id: Uuid, name: string, sku: string, category: string, unitPrice: int,
                  description: Option<string>, imageUrl: Option<string>) returns (r: Result<Product>)
      requires Valid()
      modifies this
      ensures Valid()
      ensures !Auth.Permits(caller, Managers) ==> r == Err(Forbidden)
      ensures (Auth.Permits(caller, Managers) && !CreateFieldsValid(name, sku, category, unitPrice))
                ==> r == Err(BadRequest)
      ensures (Auth.Permits(caller, Managers) && CreateFieldsValid(name, sku, category, unitPrice)
               && (id in old(products) || SkuHeldByOther(old(products), Trim(sku), id))) ==> r == Err(Conflict)
      ensures r.Ok? <==>
                && Auth.Permits(caller, Managers) && CreateFieldsValid(name, sku, category, unitPrice)
                && id !in old(products) && !SkuHeldByOther(old(products), Trim(sku), id)
      ensures r.Err? ==> products == old(products)
      ensures r.Ok? ==>
                && r.value == Product(Trim(name), Trim(sku), Trim(category), unitPrice,
                                      TrimOption(description), TrimOption(imageUrl), true)
                && products == old(products)[id := r.value]
    {
      if !Auth.Permits(caller, Managers) {
        return Err(Forbidden);
      }
      if !CreateFieldsValid(name, sku, category, unitPrice) {
        return Err(BadRequest);
      }
      if id in products || SkuHeldByOther(products, Trim(sku), id) {
        return Err(Conflict);
      }
      var product := Product(Trim(name), Trim(sku), Trim(category), unitPrice,
                             TrimOption(description), TrimOption(imageUrl), true);
      WriteKeepsValid(products, id, product);
      products := products[id := product];
      r := Ok(product);
    }

    /** PUT /products/:id: supervisors and the CEO change the fields they
        supply; everything else about the product stays as it was. A new SKU
        that another product holds violates the unique index (409). */
    method Update(caller: User, id: Uuid, name: Option<string>, sku: Option<string>, category: Option<string>,
                  unitPrice: Option<int>, description: Option<string>, imageUrl: Option<string>,
                  isActive: Option<bool>) returns (r: Result<Product>)
      requires Valid()
      modifies this
      ensures Valid()
      ensures var c := Sanitised(name, sku, category, unitPrice, description, imageUrl, isActive);
              && (!Auth.Permits(caller, Managers) ==> r == Err(Forbidden))
              && ((Auth.Permits(caller, Managers) && !UpdateFieldsValid(c)) ==> r == Err(BadRequest))
              && ((Auth.Permits(caller, Managers) && UpdateFieldsValid(c) && id !in old(products))
                    ==> r == Err(NotFound))
              && ((Auth.Permits(caller, Managers) && UpdateFieldsValid(c) && id in old(products)
                   && SkuHeldByOther(old(products), Merge(old(products)[id], c).sku, id)) ==> r == Err(Conflict))
              && (r.Ok? <==>
                    && Auth.Permits(caller, Managers) && UpdateFieldsValid(c) && id in old(products)
                    && !SkuHeldByOther(old(products), Merge(old(products)[id], c).sku, id))
              && (r.Ok? ==> r.value == Merge(old(products)[id], c) && products == old(products)[id := r.value])
      ensures r.Err? ==> r.status in {Forbidden, BadRequest, NotFound, Conflict} && products == old(products)
    {
      if !Auth.Permits(caller, Managers) {
        return Err(Forbidden);
      }
      var changes := Sanitised(name, sku, category, unitPrice, description, imageUrl, isActive);
      if !UpdateFieldsValid(changes) {
        return Err(BadRequest);
      }
      if id !in products {
        return Err(NotFound);
      }
      var updated := Merge(products[id], changes);
      if SkuHeldByOther(products, updated.sku, id) {
        return Err(Conflict);
      }
      MergeKeepsWellFormed(products[id], changes);
      WriteKeepsValid(products, id, updated);
      products := products[id := updated];
      r := Ok(updated);
    }

    /** DELETE /products/:id: the CEO deactivates a product; the row stays,
        with every other field unchanged. */
    method Deactivate(caller: User, id: Uuid) returns (r: Result<Product>)
      requires Valid()
      modifies this
      ensures Valid()
      ensures !Auth.Permits(caller, [Ceo]) ==> r == Err(Forbidden)
      ensures (Auth.Permits(caller, [Ceo]) && id !in old(products)) ==> r == Err(NotFound)
      ensures r.Ok? <==> Auth.Permits(caller, [Ceo]) && id in old(products)
      ensures r.Err? ==> r.status in {Forbidden, NotFound} && products == old(products)
      ensures r.Ok? ==>
                && r.value == old(products)[id].(isActive := false)
                && products == old(products)[id := r.value]
      ensures products.Keys == old(products).Keys
    {
      if !Auth.Permits(caller, [Ceo]) {
        return Err(Forbidden);
      }
      if id !in products {
        return Err(NotFound);
      }
      var updated := products[id].(isActive := false);
      WriteKeepsValid(products, id, updated);
      products := products[id := updated];
      r := Ok(updated);
    }
  }
}

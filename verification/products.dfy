/** The Product record and its fluent builder. Prices are exact reals; the
    data generator's random defaults come in as a `ProductDraws`. */
module Products {
  import Draws
  import Decimal

  datatype Product = Product(
    name: string,
    price: real,
    description: string,
    category: string,
    sku: string,
    stock: int,
    isAvailable: bool,
    imageUrl: string)

  const PlaceholderImage: string := "https://via.placeholder.com/300"

  /** What the data generator hands a fresh builder: the random part of the
      name, a whole-number price, a description and a SKU. */
  datatype ProductDraws = ProductDraws(nameSuffix: string, price: int, description: string, sku: string)

  /** The price draw is a random integer from 10 to 1000, both included. */
  predicate PriceDrawInRange(d: ProductDraws) {
    10 <= d.price <= 1000
  }

  /** The builder's private fields, one per Product field. */
  datatype ProductBuilder = ProductBuilder(
    name: string,
    price: real,
    description: string,
    category: string,
    sku: string,
    stock: int,
    isAvailable: bool,
    imageUrl: string)

  datatype ProductField = Name | Price | Description | Category | Sku | Stock | IsAvailable | ImageUrl

  /** Whether builders `b` and `b'` hold the same value in field f. */
  predicate Agree(b: ProductBuilder, b': ProductBuilder, f: ProductField) {
    match f
    case Name => b.name == b'.name
    case Price => b.price == b'.price
    case Description => b.description == b'.description
    case Category => b.category == b'.category
    case Sku => b.sku == b'.sku
    case Stock => b.stock == b'.stock
    case IsAvailable => b.isAvailable == b'.isAvailable
    case ImageUrl => b.imageUrl == b'.imageUrl
  }

  /** `b'` agrees with `b` on every field outside `changed`. */
  predicate SameExcept(b: ProductBuilder, b': ProductBuilder, changed: set<ProductField>) {
    forall f :: f !in changed ==> Agree(b, b', f)
  }

  /** `ProductBuilder()`: a "Product-" name, the drawn price, description and
      SKU, category "General", 100 in stock, available, placeholder image. */
  function NewProductBuilder(d: ProductDraws): (b: ProductBuilder)
    ensures b.category == "General" && b.stock == 100 && b.isAvailable
    ensures b.name == "Product-" + d.nameSuffix && b.price == d.price as real
    ensures b.description == d.description && b.sku == d.sku && b.imageUrl == PlaceholderImage
  {
    ProductBuilder("Product-" + d.nameSuffix, d.price as real, d.description, "General", d.sku, 100, true,
                   PlaceholderImage)
  }

  function WithName(b: ProductBuilder, name: string): (r: ProductBuilder)
    ensures r.name == name && SameExcept(b, r, {Name})
  {
    b.(name := name)
  }

  function WithPrice(b: ProductBuilder, price: real): (r: ProductBuilder)
    ensures r.price == price && SameExcept(b, r, {Price})
  {
    b.(price := price)
  }

  function WithDescription(b: ProductBuilder, description: string): (r: ProductBuilder)
    ensures r.description == description && SameExcept(b, r, {Description})
  {
    b.(description := description)
  }

  function InCategory(b: ProductBuilder, category: string): (r: ProductBuilder)
    ensures r.category == category && SameExcept(b, r, {Category})
  {
    b.(category := category)
  }

  function WithSku(b: ProductBuilder, sku: string): (r: ProductBuilder)
    ensures r.sku == sku && SameExcept(b, r, {Sku})
  {
    b.(sku := sku)
  }

  /** `with_stock` sets the quantity only; availability is left as it is. */
  function WithStock(b: ProductBuilder, stock: int): (r: ProductBuilder)
    ensures r.stock == stock && SameExcept(b, r, {Stock})
  {
    b.(stock := stock)
  }

  /** `out_of_stock` is the one setter that touches two fields: no stock,
      and not available. */
  function OutOfStock(b: ProductBuilder): (r: ProductBuilder)
    ensures r.stock == 0 && !r.isAvailable && SameExcept(b, r, {Stock, IsAvailable})
  {
    b.(stock := 0, isAvailable := false)
  }

  function WithImage(b: ProductBuilder, imageUrl: string): (r: ProductBuilder)
    ensures r.imageUrl == imageUrl && SameExcept(b, r, {ImageUrl})
  {
    b.(imageUrl := imageUrl)
  }

  /** `build`: a Product whose every field is the builder's. */
  function Build(b: ProductBuilder): (p: Product)
    ensures p.name == b.name && p.price == b.price && p.description == b.description
    ensures p.category == b.category && p.sku == b.sku && p.stock == b.stock
    ensures p.isAvailable == b.isAvailable && p.imageUrl == b.imageUrl
  {
    Product(b.name, b.price, b.description, b.category, b.sku, b.stock, b.isAvailable, b.imageUrl)
  }

  /** `create_sample_product(category)`: a default product in that category. */
  function CreateSampleProduct(d: ProductDraws, category: string): (p: Product)
    ensures p.category == category && p.stock == 100 && p.isAvailable
    ensures p.price == d.price as real && p.name == "Product-" + d.nameSuffix
    ensures p.description == d.description && p.sku == d.sku && p.imageUrl == PlaceholderImage
  {
    Build(InCategory(NewProductBuilder(d), category))
  }

  /** The category create_sample_product uses when given none. */
  const DefaultSampleCategory: string := "Electronics"

  /** Without a category, the sample product is an "Electronics" product
      that differs from a fresh builder's only in its category. */
  lemma SampleProductDefaultCategory(d: ProductDraws)
    ensures CreateSampleProduct(d, DefaultSampleCategory).category == "Electronics"
    ensures CreateSampleProduct(d, DefaultSampleCategory) == Build(NewProductBuilder(d)).(category := "Electronics")
  {
  }

  /** A default product's SKU, drawn as intended, is ten upper-case letters
      and digits. */
  lemma DefaultSkuIsUpperAlnum(d: ProductDraws)
    requires Draws.SkuDraw(d.sku)
    ensures var sku := Build(NewProductBuilder(d)).sku;
      |sku| == 10 && forall i :: 0 <= i < |sku| ==> Draws.IsUpperAlnum(sku[i])
  {
    Draws.SkuDrawIsUpperAlnum(d.sku);
  }

  /** A default product's price lies in the drawn range. */
  lemma DefaultPriceInRange(d: ProductDraws)
    requires PriceDrawInRange(d)
    ensures 10.0 <= Build(NewProductBuilder(d)).price <= 1000.0
  {
  }

  // ---------------------------------------------------------------------
  // Chains of setter calls

  datatype ProductStep =
    | SetName(name: string)
    | SetPrice(price: real)
    | SetDescription(description: string)
    | SetCategory(category: string)
    | SetSku(sku: string)
    | SetStock(stock: int)
    | MarkOutOfStock
    | SetImage(imageUrl: string)

  function Apply(b: ProductBuilder, s: ProductStep): ProductBuilder {
    match s
    case SetName(name) => WithName(b, name)
    case SetPrice(price) => WithPrice(b, price)
    case SetDescription(description) => WithDescription(b, description)
    case SetCategory(category) => InCategory(b, category)
    case SetSku(sku) => WithSku(b, sku)
    case SetStock(stock) => WithStock(b, stock)
    case MarkOutOfStock => OutOfStock(b)
    case SetImage(imageUrl) => WithImage(b, imageUrl)
  }

  /** The calls of a chain, first call first. */
  function ApplyAll(b: ProductBuilder, steps: seq<ProductStep>): ProductBuilder
    decreases |steps|
  {
    if steps == [] then b else Apply(ApplyAll(b, steps[..|steps| - 1]), steps[|steps| - 1])
  }

  /** Only `out_of_stock` changes availability, and nothing sets it back:
      a product built from a fresh builder is available exactly when no call
      in its chain was `out_of_stock`, whatever stock was set afterwards. */
  lemma {:induction false} AvailableUnlessMarkedOut(b: ProductBuilder, steps: seq<ProductStep>)
    requires b.isAvailable
    ensures Build(ApplyAll(b, steps)).isAvailable <==> forall i :: 0 <= i < |steps| ==> steps[i] != MarkOutOfStock
    decreases |steps|
  {
    if steps != [] {
      var init := steps[..|steps| - 1];
      AvailableUnlessMarkedOut(b, init);
      assert forall i :: 0 <= i < |init| ==> init[i] == steps[i];
    }
  }

  /** The stock a chain leaves: that of its last stock-setting call (0 for
      `out_of_stock`), or the starting stock if it has none. */
  function LastStock(steps: seq<ProductStep>, initial: int): int
    decreases |steps|
  {
    if steps == [] then initial
    else match steps[|steps| - 1]
      case SetStock(stock) => stock
      case MarkOutOfStock => 0
      case _ => LastStock(steps[..|steps| - 1], initial)
  }

  lemma {:induction false} StockIsLastStockCall(b: ProductBuilder, steps: seq<ProductStep>)
    ensures Build(ApplyAll(b, steps)).stock == LastStock(steps, b.stock)
    decreases |steps|
  {
    if steps != [] {
      StockIsLastStockCall(b, steps[..|steps| - 1]);
    }
  }
}

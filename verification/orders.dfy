/** The Order record, its total, and its fluent builder. Product lists are
    values here; the builder's random defaults come in as draws. */
module Orders {
  import Users
  import Products
  import Draws
  import Decimal

  datatype Order = Order(
    user: Users.User,
    products: seq<Products.Product>,
    orderId: string,
    status: string,
    total: real,
    shippingAddress: string,
    paymentMethod: string)

  /** The sum of the prices, added from the first product to the last as
      Python's `sum` does; 0 for no products. */
  function TotalPrice(ps: seq<Products.Product>): (r: real)
    ensures (forall i :: 0 <= i < |ps| ==> ps[i].price >= 0.0) ==> r >= 0.0
    decreases |ps|
  {
    if ps == [] then 0.0 else TotalPrice(ps[..|ps| - 1]) + ps[|ps| - 1].price
  }

  /** The sum of the prices taken from the last product back to the first. */
  function PriceSum(ps: seq<Products.Product>): real
    decreases |ps|
  {
    if ps == [] then 0.0 else ps[0].price + PriceSum(ps[1..])
  }

  /** The order in which the prices are added makes no difference to the
      exact total. */
  lemma {:induction false} TotalPriceIsPriceSum(ps: seq<Products.Product>)
    ensures TotalPrice(ps) == PriceSum(ps)
    decreases |ps|
  {
    if ps != [] {
      TotalPriceIsPriceSum(ps[1..]);
      TotalPriceAppend([ps[0]], ps[1..]);
      assert [ps[0]] + ps[1..] == ps;
      assert [ps[0]][..0] == [];
    }
  }

  /** With no negative price, the total is at least each single price. */
  lemma {:induction false} TotalPriceCoversEachPrice(ps: seq<Products.Product>)
    requires forall i :: 0 <= i < |ps| ==> ps[i].price >= 0.0
    ensures forall i :: 0 <= i < |ps| ==> ps[i].price <= TotalPrice(ps)
    decreases |ps|
  {
    if ps != [] {
      var init := ps[..|ps| - 1];
      assert forall i :: 0 <= i < |init| ==> init[i] == ps[i];
      TotalPriceCoversEachPrice(init);
      assert TotalPrice(ps) == TotalPrice(init) + ps[|ps| - 1].price;
    }
  }

  /** `Order.calculate_total`: the sum of the order's product prices, never
      below any one of them when no price is negative. */
  function CalculateTotal(o: Order): (r: real)
    ensures r == PriceSum(o.products)
    ensures (forall i :: 0 <= i < |o.products| ==> o.products[i].price >= 0.0) ==>
      r >= 0.0 && forall i :: 0 <= i < |o.products| ==> o.products[i].price <= r
  {
    TotalPriceIsPriceSum(o.products);
    if forall i :: 0 <= i < |o.products| ==> o.products[i].price >= 0.0 then
      TotalPriceCoversEachPrice(o.products);
      TotalPrice(o.products)
    else
      TotalPrice(o.products)
  }

  /** The total of two lists put together is the sum of their totals. */
  lemma {:induction false} TotalPriceAppend(a: seq<Products.Product>, b: seq<Products.Product>)
    ensures TotalPrice(a + b) == TotalPrice(a) + TotalPrice(b)
    decreases |b|
  {
    if b != [] {
      assert (a + b)[..|a + b| - 1] == a + b[..|b| - 1];
      assert (a + b)[|a + b| - 1] == b[|b| - 1];
      TotalPriceAppend(a, b[..|b| - 1]);
    } else {
      assert a + b == a;
    }
  }

  /** With every price between lo and hi, the total lies between n * lo and
      n * hi for n products. */
  lemma {:induction false} TotalPriceBounds(ps: seq<Products.Product>, lo: real, hi: real)
    requires forall i :: 0 <= i < |ps| ==> lo <= ps[i].price <= hi
    ensures |ps| as real * lo <= TotalPrice(ps) <= |ps| as real * hi
    decreases |ps|
  {
    if ps != [] {
      var init := ps[..|ps| - 1];
      assert forall i :: 0 <= i < |init| ==> init[i] == ps[i];
      TotalPriceBounds(init, lo, hi);
      assert |init| as real * lo + lo == |ps| as real * lo;
      assert |init| as real * hi + hi == |ps| as real * hi;
    }
  }

  // ---------------------------------------------------------------------
  // The builder

  datatype OrderBuilder = OrderBuilder(
    user: Users.User,
    products: seq<Products.Product>,
    orderId: string,
    status: string,
    shippingAddress: string,
    paymentMethod: string)

  /** `OrderBuilder()`: a standard user built from `userDraws`, no products,
      an "ORD-" id with the drawn suffix, pending, no shipping address of its
      own, paid by credit card. */
  function NewOrderBuilder(userDraws: Users.UserDraws, idSuffix: string): (b: OrderBuilder)
    ensures b.user == Users.CreateStandardUser(userDraws) && b.products == []
    ensures b.orderId == "ORD-" + idSuffix && b.status == "pending"
    ensures b.shippingAddress == "" && b.paymentMethod == "credit_card"
  {
    OrderBuilder(Users.CreateStandardUser(userDraws), [], "ORD-" + idSuffix, "pending", "", "credit_card")
  }

  datatype OrderField = UserOf | ProductList | OrderId | Status | ShippingAddress | PaymentMethod

  /** Whether builders `b` and `b'` hold the same value in field f. */
  predicate Agree(b: OrderBuilder, b': OrderBuilder, f: OrderField) {
    match f
    case UserOf => b.user == b'.user
    case ProductList => b.products == b'.products
    case OrderId => b.orderId == b'.orderId
    case Status => b.status == b'.status
    case ShippingAddress => b.shippingAddress == b'.shippingAddress
    case PaymentMethod => b.paymentMethod == b'.paymentMethod
  }

  /** `b'` agrees with `b` on every field outside `changed`. */
  predicate SameExcept(b: OrderBuilder, b': OrderBuilder, changed: set<OrderField>) {
    forall f :: f !in changed ==> Agree(b, b', f)
  }

  function ForUser(b: OrderBuilder, user: Users.User): (r: OrderBuilder)
    ensures r.user == user && SameExcept(b, r, {UserOf})
  {
    b.(user := user)
  }

  /** `with_products` replaces the whole list. */
  function WithProducts(b: OrderBuilder, products: seq<Products.Product>): (r: OrderBuilder)
    ensures r.products == products && SameExcept(b, r, {ProductList})
  {
    b.(products := products)
  }

  /** `add_product` puts the product after the ones already there. */
  function AddProduct(b: OrderBuilder, p: Products.Product): (r: OrderBuilder)
    ensures |r.products| == |b.products| + 1 && r.products[..|b.products|] == b.products
    ensures r.products[|b.products|] == p
    ensures SameExcept(b, r, {ProductList})
  {
    b.(products := b.products + [p])
  }

  function WithOrderId(b: OrderBuilder, orderId: string): (r: OrderBuilder)
    ensures r.orderId == orderId && SameExcept(b, r, {OrderId})
  {
    b.(orderId := orderId)
  }

  function WithStatus(b: OrderBuilder, status: string): (r: OrderBuilder)
    ensures r.status == status && SameExcept(b, r, {Status})
  {
    b.(status := status)
  }

  function WithShippingAddress(b: OrderBuilder, address: string): (r: OrderBuilder)
    ensures r.shippingAddress == address && SameExcept(b, r, {ShippingAddress})
  {
    b.(shippingAddress := address)
  }

  function WithPaymentMethod(b: OrderBuilder, paymentMethod: string): (r: OrderBuilder)
    ensures r.paymentMethod == paymentMethod && SameExcept(b, r, {PaymentMethod})
  {
    b.(paymentMethod := paymentMethod)
  }

  /** `build`: the order carries the builder's user, products, id, status and
      payment method, its total is the sum of the product prices, and it
      ships to the builder's address unless that is empty, in which case it
      ships to the user's. */
  function Build(b: OrderBuilder): (o: Order)
    ensures o.user == b.user && o.products == b.products && o.orderId == b.orderId
    ensures o.status == b.status && o.paymentMethod == b.paymentMethod
    ensures o.total == CalculateTotal(o)
    ensures b.shippingAddress != "" ==> o.shippingAddress == b.shippingAddress
    ensures b.shippingAddress == "" ==> o.shippingAddress == b.user.address
  {
    var shipTo := if b.shippingAddress != "" then b.shippingAddress else b.user.address;
    Order(b.user, b.products, b.orderId, b.status, TotalPrice(b.products), shipTo, b.paymentMethod)
  }

  /** An order with no products totals 0. */
  lemma EmptyOrderTotalsZero(b: OrderBuilder)
    requires b.products == []
    ensures Build(b).total == 0.0
  {
  }

  /** Adding a product raises the built order's total by exactly its price. */
  lemma AddProductAddsPrice(b: OrderBuilder, p: Products.Product)
    ensures Build(AddProduct(b, p)).total == Build(b).total + p.price
  {
    assert (b.products + [p])[..|b.products|] == b.products;
  }

  /** The product list of a chain of `add_product` calls is the calls'
      products in call order, after the ones the builder already had. */
  function AddAll(b: OrderBuilder, ps: seq<Products.Product>): OrderBuilder
    decreases |ps|
  {
    if ps == [] then b else AddProduct(AddAll(b, ps[..|ps| - 1]), ps[|ps| - 1])
  }

  lemma {:induction false} AddAllAppends(b: OrderBuilder, ps: seq<Products.Product>)
    ensures AddAll(b, ps).products == b.products + ps
    ensures Build(AddAll(b, ps)).total == Build(b).total + TotalPrice(ps)
    decreases |ps|
  {
    if ps != [] {
      var init := ps[..|ps| - 1];
      AddAllAppends(b, init);
      assert b.products + init + [ps[|ps| - 1]] == b.products + ps;
      TotalPriceAppend(b.products, ps);
    }
  }

  // ---------------------------------------------------------------------
  // create_order_with_products

  /** Products built one per draw, for draws 0 .. n - 1. */
  function DefaultProducts(draws: nat -> Products.ProductDraws, n: nat): (ps: seq<Products.Product>)
    ensures |ps| == n
    ensures forall i :: 0 <= i < n ==> ps[i] == Products.Build(Products.NewProductBuilder(draws(i)))
    decreases n
  {
    if n == 0 then [] else DefaultProducts(draws, n - 1) + [Products.Build(Products.NewProductBuilder(draws(n - 1)))]
  }

  /** `create_order_with_products(user, product_count)`: an order for `user`
      with `product_count` default products (none when the count is not
      positive, as `range` gives), the i-th built from `productDraws(i)`. */
  function CreateOrderWithProducts(user: Users.User, productCount: int, productDraws: nat -> Products.ProductDraws,
                                   userDraws: Users.UserDraws, idSuffix: string): (o: Order)
    ensures o.user == user
    ensures productCount >= 0 ==> |o.products| == productCount
    ensures productCount < 0 ==> o.products == []
    ensures forall i :: 0 <= i < |o.products| ==>
      o.products[i] == Products.Build(Products.NewProductBuilder(productDraws(i)))
    ensures o.total == TotalPrice(o.products)
    ensures o.status == "pending" && o.paymentMethod == "credit_card" && o.orderId == "ORD-" + idSuffix
    ensures o.shippingAddress == user.address
  {
    var products := DefaultProducts(productDraws, if productCount > 0 then productCount else 0);
    Build(WithProducts(ForUser(NewOrderBuilder(userDraws, idSuffix), user), products))
  }

  /** The product count create_order_with_products uses when given none. */
  const DefaultProductCount: int := 3

  /** With its default count, the order holds three default products and,
      with every price drawn in range, costs between 30 and 3000. */
  lemma DefaultOrderHasThreeProducts(user: Users.User, productDraws: nat -> Products.ProductDraws,
                                     userDraws: Users.UserDraws, idSuffix: string)
    requires forall i: nat :: Products.PriceDrawInRange(productDraws(i))
    ensures var o := CreateOrderWithProducts(user, DefaultProductCount, productDraws, userDraws, idSuffix);
      |o.products| == 3 && 30.0 <= o.total <= 3000.0
  {
    CreatedOrderTotalInRange(user, 3, productDraws, userDraws, idSuffix);
  }

  /** A fresh builder's order id, with the suffix drawn as intended, is
      "ORD-" and eight digits. */
  lemma NewOrderIdIsNumeric(userDraws: Users.UserDraws, idSuffix: string)
    requires Draws.OrderIdDraw(idSuffix)
    ensures var id := NewOrderBuilder(userDraws, idSuffix).orderId;
      |id| == 12 && id[..4] == "ORD-" && Decimal.AllDigits(id[4..])
  {
    Draws.OrderIdDrawIsNumeric(idSuffix);
    var id := NewOrderBuilder(userDraws, idSuffix).orderId;
    assert id[4..] == idSuffix;
  }

  /** With every price drawn in range, n default products cost between
      10 * n and 1000 * n together. */
  lemma DefaultProductsTotalInRange(productDraws: nat -> Products.ProductDraws, n: nat)
    requires forall i: nat :: Products.PriceDrawInRange(productDraws(i))
    ensures 10.0 * n as real <= TotalPrice(DefaultProducts(productDraws, n)) <= 1000.0 * n as real
  {
    var ps := DefaultProducts(productDraws, n);
    forall i | 0 <= i < |ps|
      ensures 10.0 <= ps[i].price <= 1000.0
    {
      Products.DefaultPriceInRange(productDraws(i));
    }
    TotalPriceBounds(ps, 10.0, 1000.0);
  }

  /** With every price drawn in range, an order of n default products costs
      between 10 * n and 1000 * n. */
  lemma CreatedOrderTotalInRange(user: Users.User, n: nat, productDraws: nat -> Products.ProductDraws,
                                 userDraws: Users.UserDraws, idSuffix: string)
    requires forall i: nat :: Products.PriceDrawInRange(productDraws(i))
    ensures var o := CreateOrderWithProducts(user, n, productDraws, userDraws, idSuffix);
      10.0 * n as real <= o.total <= 1000.0 * n as real
  {
    var o := CreateOrderWithProducts(user, n, productDraws, userDraws, idSuffix);
    assert o.products == DefaultProducts(productDraws, n);
    DefaultProductsTotalInRange(productDraws, n);
  }
}

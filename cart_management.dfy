/** The product-id to quantity bookkeeping of cart-management.cpp. */
module Cart {

  /** A product as the cart sees it; its floating-point price is not modelled. */
  datatype Product = Product(id: int, name: string)

  /** One line of the cart: the product first added under its id and the
      quantity accumulated for it. */
  datatype CartItem = CartItem(product: Product, quantity: int)

  type Items = map<int, CartItem>

  /** The cart after adding `quantity` of `product`: an existing line keeps
      its product and grows by the quantity, a new id gets a fresh line. */
  function Added(items: Items, product: Product, quantity: int): (r: Items)
    ensures r.Keys == items.Keys + {product.id}
    ensures product.id in items ==>
      r[product.id] == CartItem(items[product.id].product, items[product.id].quantity + quantity)
    ensures product.id !in items ==> r[product.id] == CartItem(product, quantity)
    ensures forall id :: id in items && id != product.id ==> r[id] == items[id]
  {
    var id := product.id;
    if id in items then items[id := CartItem(items[id].product, items[id].quantity + quantity)]
    else items[id := CartItem(product, quantity)]
  }

  /** Two adds of the same product make the same cart as one add of the
      summed quantity. */
  lemma AddTwiceIsAddSum(items: Items, product: Product, q1: int, q2: int)
    ensures Added(Added(items, product, q1), product, q2) == Added(items, product, q1 + q2)
  {
    var once := Added(items, product, q1 + q2);
    var twice := Added(Added(items, product, q1), product, q2);
    assert twice.Keys == once.Keys;
    forall id | id in once
      ensures twice[id] == once[id]
    {
    }
  }

  /** Adds of different products commute. */
  lemma AddsCommute(items: Items, p1: Product, q1: int, p2: Product, q2: int)
    requires p1.id != p2.id
    ensures Added(Added(items, p1, q1), p2, q2) == Added(Added(items, p2, q2), p1, q1)
  {
    var a := Added(Added(items, p1, q1), p2, q2);
    var b := Added(Added(items, p2, q2), p1, q1);
    assert a.Keys == b.Keys;
    forall id | id in a
      ensures a[id] == b[id]
    {
    }
  }

  /** Removing after adding a product the cart did not hold gives the cart back. */
  lemma RemoveUndoesNewAdd(items: Items, product: Product, quantity: int)
    requires product.id !in items
    ensures Added(items, product, quantity) - {product.id} == items
  {
    var r := Added(items, product, quantity) - {product.id};
    assert r.Keys == items.Keys;
  }

  /** ShoppingCart: the lines of the cart, keyed by product id. */
  class ShoppingCart {
    var items: Items

    constructor ()
      ensures items == map[]
    {
      items := map[];
    }

    /** ShoppingCart::addProduct. */
    method AddProduct(product: Product, quantity: int)
      modifies this
      ensures items == Added(old(items), product, quantity)
    {
      var id := product.id;
      if id in items {
        items := items[id := CartItem(items[id].product, items[id].quantity + quantity)];
      } else {
        items := items[id := CartItem(product, quantity)];
      }
    }

    /** ShoppingCart::removeProduct: the id is erased, a no-op when absent,
        and every other line stays. */
    method RemoveProduct(productId: int)
      modifies this
      ensures items == old(items) - {productId}
      ensures productId !in items
      ensures items.Keys == old(items).Keys - {productId}
      ensures forall id :: id in items ==> items[id] == old(items)[id]
      ensures productId !in old(items) ==> items == old(items)
    {
      items := items - {productId};
    }
  }

  /** CartManager: forwards to the cart it was given. */
  class CartManager {
    const cart: ShoppingCart

    constructor (c: ShoppingCart)
      ensures cart == c
    {
      cart := c;
    }

    method AddProduct(product: Product, quantity: int)
      modifies cart
      ensures cart.items == Added(old(cart.items), product, quantity)
    {
      cart.AddProduct(product, quantity);
    }

    method RemoveProduct(productId: int)
      modifies cart
      ensures cart.items == old(cart.items) - {productId}
    {
      cart.RemoveProduct(productId);
    }
  }
}

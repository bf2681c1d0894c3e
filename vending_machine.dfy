/** The inventory and the IDLE / ACTIVE / DISPENSING state machine of vendingMachine.cpp. */
module Vending {

  datatype Product = Product(id: int, name: string, price: int)

  /** What `Product()` default-constructs: id 0, no name, price 0. */
  const NoProduct := Product(0, "", 0)

  datatype StockEntry = StockEntry(product: Product, quantity: int)

  /** The inventory's `map<int, pair<Product, int>>`. */
  type Stock = map<int, StockEntry>

  /** Every entry sits under its own product's id, as addProduct files it. */
  predicate WellKeyed(stock: Stock) {
    forall id :: id in stock ==> stock[id].product.id == id
  }

  /** Inventory::isAvailable: there is an entry for `id` and it is not used up. */
  predicate IsAvailable(stock: Stock, id: int)
    ensures IsAvailable(stock, id) ==> id in stock && GetProduct(stock, id) == stock[id].product && stock[id].quantity >= 1
    ensures id !in stock ==> !IsAvailable(stock, id)
  {
    id in stock && stock[id].quantity > 0
  }

  /** Inventory::getProduct: the stored product, or the default one for an unknown id. */
  function GetProduct(stock: Stock, id: int): (p: Product)
    ensures id !in stock ==> p.id == 0 && p.price == 0
    ensures id in stock ==> p == stock[id].product
    ensures WellKeyed(stock) ==> (p.id == 0 <==> id !in stock || id == 0)
  {
    if id in stock then stock[id].product else NoProduct
  }

  /** Stocking a product and then looking it up gives it back, available
      exactly when its quantity is positive; other ids read as before. */
  lemma AddThenLookUp(stock: Stock, id: int, name: string, price: int, quantity: int)
    ensures var s := stock[id := StockEntry(Product(id, name, price), quantity)];
      && GetProduct(s, id) == Product(id, name, price)
      && (IsAvailable(s, id) <==> quantity > 0)
      && (forall k :: k != id ==> GetProduct(s, k) == GetProduct(stock, k) && (IsAvailable(s, k) <==> IsAvailable(stock, k)))
  {
  }

  /** Inventory: the stock map, changed in place. */
  class Inventory {
    var stock: Stock

    ghost predicate Valid()
      reads this
    {
      WellKeyed(stock)
    }

    constructor ()
      ensures Valid() && stock == map[]
    {
      stock := map[];
    }

    /** Inventory::addProduct: `stock[id] = {Product(id, name, price), quantity}`,
        replacing any earlier entry. */
    method AddProduct(id: int, name: string, price: int, quantity: int)
      requires Valid()
      modifies this
      ensures Valid()
      ensures stock == old(stock)[id := StockEntry(Product(id, name, price), quantity)]
    {
      stock := stock[id := StockEntry(Product(id, name, price), quantity)];
    }

    /** Inventory::dispenseProduct: one unit fewer when the product is
        available, otherwise nothing; a quantity never drops below 0 here. */
    method DispenseProduct(id: int)
      requires Valid()
      modifies this
      ensures Valid()
      ensures stock.Keys == old(stock).Keys
      ensures forall k :: k in stock && k != id ==> stock[k] == old(stock)[k]
      ensures old(IsAvailable(stock, id)) ==>
        stock[id] == old(stock)[id].(quantity := old(stock)[id].quantity - 1) && stock[id].quantity >= 0
      ensures !old(IsAvailable(stock, id)) ==> stock == old(stock)
    {
      if id in stock && stock[id].quantity > 0 {
        stock := stock[id := stock[id].(quantity := stock[id].quantity - 1)];
      }
    }
  }

  datatype State = Idle | Active | Dispensing

  /** What chooseProduct reports. */
  datatype ChoiceOutcome = InvalidAction | OutOfStock | InsufficientFunds | Dispensed | NothingDispensed

  /** VendingMachine: the session state and balance over an inventory. */
  class VendingMachine {
    var state: State
    var currentBalance: int
    const inventory: Inventory

    constructor (inv: Inventory)
      ensures state == Idle && currentBalance == 0 && inventory == inv
    {
      state := Idle;
      currentBalance := 0;
      inventory := inv;
    }

    /** VendingMachine::enterCash: accepted only in IDLE, which it leaves for ACTIVE. */
    method EnterCash(amount: int) returns (accepted: bool)
      modifies this
      ensures accepted <==> old(state) == Idle
      ensures accepted ==> state == Active && currentBalance == old(currentBalance) + amount
      ensures !accepted ==> state == old(state) && currentBalance == old(currentBalance)
    {
      if state == Idle {
        state := Active;
        currentBalance := currentBalance + amount;
        return true;
      }
      return false;
    }

    /** VendingMachine::refund: the balance is handed back and the machine is IDLE. */
    method Refund()
      modifies this
      ensures state == Idle && currentBalance == 0
    {
      currentBalance := 0;
      state := Idle;
    }

    /** VendingMachine::dispenseProduct: for a known product, one unit
        leaves the stock, its price leaves the balance and the machine is
        IDLE; for the default product (id 0) nothing happens. */
    method DispenseProduct(productId: int) returns (dispensed: bool)
      requires inventory.Valid()
      modifies this, inventory
      ensures inventory.Valid()
      ensures var p := GetProduct(old(inventory.stock), productId);
        && (dispensed <==> p.id != 0)
        && (dispensed ==> && state == Idle && currentBalance == old(currentBalance) - p.price
                          && inventory.stock == (if old(IsAvailable(inventory.stock, productId))
                                                 then old(inventory.stock)[productId := old(inventory.stock)[productId].(quantity := old(inventory.stock)[productId].quantity - 1)]
                                                 else old(inventory.stock)))
        && (!dispensed ==> state == old(state) && currentBalance == old(currentBalance) && inventory.stock == old(inventory.stock))
    {
      var p := GetProduct(inventory.stock, productId);
      if p.id == 0 {
        return false;
      }
      inventory.DispenseProduct(productId);
      currentBalance := currentBalance - p.price;
      state := Idle;
      return true;
    }

    /** VendingMachine::chooseProduct. Outside ACTIVE nothing happens. An
        unavailable product, or a balance below its price, refunds: balance 0,
        IDLE, stock untouched. Otherwise one unit is sold: the stock loses
        it, the balance keeps the change and the machine returns to IDLE,
        except for a product filed under id 0, which leaves the machine in
        DISPENSING with nothing sold. */
    method ChooseProduct(productId: int) returns (outcome: ChoiceOutcome)
      requires inventory.Valid()
      modifies this, inventory
      ensures inventory.Valid()
      ensures var stock := old(inventory.stock);
        var p := GetProduct(stock, productId);
        && (outcome == InvalidAction <==> old(state) != Active)
        && (outcome == OutOfStock <==> old(state) == Active && !IsAvailable(stock, productId))
        && (outcome == InsufficientFunds <==> old(state) == Active && IsAvailable(stock, productId) && old(currentBalance) < p.price)
        && (outcome == NothingDispensed <==> old(state) == Active && IsAvailable(stock, productId) && old(currentBalance) >= p.price && productId == 0)
        && (outcome == InvalidAction ==> state == old(state) && currentBalance == old(currentBalance) && inventory.stock == stock)
        && (outcome in {OutOfStock, InsufficientFunds} ==> state == Idle && currentBalance == 0 && inventory.stock == stock)
        && (outcome == NothingDispensed ==> state == Dispensing && currentBalance == old(currentBalance) && inventory.stock == stock)
        && (outcome == Dispensed ==>
              && state == Idle
              && 0 <= currentBalance == old(currentBalance) - p.price
              && inventory.stock == stock[productId := stock[productId].(quantity := stock[productId].quantity - 1)]
              && inventory.stock[productId].quantity >= 0)
    {
      if state != Active {
        return InvalidAction;
      }
      if !IsAvailable(inventory.stock, productId) {
        Refund();
        return OutOfStock;
      }
      var p := GetProduct(inventory.stock, productId);
      if currentBalance < p.price {
        Refund();
        return InsufficientFunds;
      }
      state := Dispensing;
      var dispensed := DispenseProduct(productId);
      outcome := if dispensed then Dispensed else NothingDispensed;
    }
  }
}

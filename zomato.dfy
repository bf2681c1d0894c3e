/** Orders, their status and id counter, restaurants and delivery in zomato.cpp. */
module Zomato {

  datatype OrderStatus = Placed | Preparing | OutForDelivery | Delivered

  /** Order is copied by value in the source (returned and pushed by copy),
      so it is a datatype here. */
  datatype Order = Order(orderId: int, user: string, restaurant: string, items: seq<string>, status: OrderStatus)

  /** Order::getStatusString. */
  function StatusString(status: OrderStatus): (name: string)
    ensures name != "UNKNOWN" && name != ""
  {
    match status
    case Placed => "PLACED"
    case Preparing => "PREPARING"
    case OutForDelivery => "OUT_FOR_DELIVERY"
    case Delivered => "DELIVERED"
  }

  /** Each status has a name of its own. */
  lemma StatusStringInjective(a: OrderStatus, b: OrderStatus)
    ensures StatusString(a) == StatusString(b) <==> a == b
  {
    if a != b {
      assert StatusString(a)[1] != StatusString(b)[1] || |StatusString(a)| != |StatusString(b)|;
    }
  }

  /** Order::updateStatus: any status, unconditionally; nothing else changes. */
  function UpdateStatus(order: Order, newStatus: OrderStatus): (o: Order)
    ensures o.status == newStatus
    ensures o.orderId == order.orderId && o.user == order.user
    ensures o.restaurant == order.restaurant && o.items == order.items
  {
    order.(status := newStatus)
  }

  /** The static `Order::orderCounter`, pre-incremented by each new order. */
  class OrderCounter {
    var orderCounter: int
    /** The ids handed out so far, in order. */
    ghost var issued: seq<int>

    ghost predicate Valid()
      reads this
    {
      && orderCounter == |issued|
      && forall k :: 0 <= k < |issued| ==> issued[k] == k + 1
    }

    constructor ()
      ensures Valid() && orderCounter == 0 && issued == []
    {
      orderCounter := 0;
      issued := [];
    }

    /** The Order constructor: a PLACED order with the next id. */
    method NewOrder(u: string, r: string, i: seq<string>) returns (order: Order)
      requires Valid()
      modifies this
      ensures Valid()
      ensures order == Order(orderCounter, u, r, i, Placed)
      ensures issued == old(issued) + [order.orderId]
      ensures forall k :: 0 <= k < |old(issued)| ==> old(issued)[k] < order.orderId
    {
      orderCounter := orderCounter + 1;
      issued := issued + [orderCounter];
      order := Order(orderCounter, u, r, i, Placed);
    }
  }

  /** Ids issued by a valid counter start at 1, strictly increase and so
      never repeat. */
  lemma IssuedIdsIncrease(counter: OrderCounter, j: int, k: int)
    requires counter.Valid() && 0 <= j < k < |counter.issued|
    ensures 1 <= counter.issued[j] < counter.issued[k]
  {
  }

  class Restaurant {
    const name: string
    var menu: seq<string>
    var orders: seq<Order>

    constructor (n: string, m: seq<string>)
      ensures name == n && menu == m && orders == []
    {
      name := n;
      menu := m;
      orders := [];
    }

    /** Restaurant::acceptOrder: the caller's order becomes PREPARING and a
        copy of it is kept. */
    method AcceptOrder(order: Order) returns (accepted: Order)
      modifies this
      ensures accepted == UpdateStatus(order, Preparing)
      ensures orders == old(orders) + [accepted]
    {
      accepted := UpdateStatus(order, Preparing);
      orders := orders + [accepted];
    }
  }

  datatype DeliveryPartner = DeliveryPartner(name: string)

  /** DeliveryPartner::deliverOrder: out for delivery, then delivered. */
  function DeliverOrder(partner: DeliveryPartner, order: Order): (o: Order)
    ensures o == UpdateStatus(order, Delivered)
  {
    UpdateStatus(UpdateStatus(order, OutForDelivery), Delivered)
  }

  class User {
    const name: string

    constructor (n: string)
      ensures name == n
    {
      name := n;
    }

    /** User::placeOrder: a new order from this user at the restaurant,
        accepted there; the caller gets its own copy. */
    method PlaceOrder(counter: OrderCounter, restaurant: Restaurant, items: seq<string>) returns (order: Order)
      requires counter.Valid()
      modifies counter, restaurant
      ensures counter.Valid() && counter.orderCounter == old(counter.orderCounter) + 1
      ensures order == Order(counter.orderCounter, name, restaurant.name, items, Preparing)
      ensures restaurant.orders == old(restaurant.orders) + [order]
    {
      var placed := counter.NewOrder(name, restaurant.name, items);
      order := restaurant.AcceptOrder(placed);
    }
  }

  /** ZomatoSystem: the restaurants, each stored by value under its own name. */
  class ZomatoSystem {
    var restaurants: map<string, Restaurant>

    /** Every restaurant sits under its own name, so distinct names hold
        distinct restaurants, as the values of the source's map are. */
    ghost predicate Valid()
      reads this, restaurants.Values
    {
      forall n :: n in restaurants ==> restaurants[n].name == n
    }

    constructor ()
      ensures Valid() && restaurants == map[]
    {
      restaurants := map[];
    }

    /** ZomatoSystem::addRestaurant: `restaurants[name] = Restaurant(name, menu)`.
        A new name gets a new restaurant; a known name has its stored
        restaurant overwritten in place, so whoever holds it (from
        FindRestaurant) sees the new menu and no orders. */
    method AddRestaurant(name: string, menu: seq<string>)
      requires Valid()
      modifies this, restaurants.Values
      ensures Valid()
      ensures name in restaurants
      ensures restaurants[name].name == name && restaurants[name].menu == menu && restaurants[name].orders == []
      ensures name in old(restaurants) ==> restaurants == old(restaurants)
      ensures name !in old(restaurants) ==> fresh(restaurants[name]) && restaurants == old(restaurants)[name := restaurants[name]]
      ensures forall n :: n in old(restaurants) && n != name ==> unchanged(old(restaurants)[n])
    {
      if name in restaurants {
        var r := restaurants[name];
        r.menu := menu;
        r.orders := [];
      } else {
        var r := new Restaurant(name, menu);
        restaurants := restaurants[name := r];
      }
    }

    /** ZomatoSystem::findRestaurant: the stored restaurant itself, or null
        for an unknown name. */
    function FindRestaurant(name: string): (r: Restaurant?)
      reads this, restaurants.Values
      ensures r == null <==> name !in restaurants
      ensures r != null ==> r == restaurants[name]
      ensures Valid() && r != null ==> r.name == name
    {
      if name in restaurants then restaurants[name] else null
    }
  }
}

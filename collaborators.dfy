/**
 * The two collaborators the checkout writes through: the order repository,
 * a store of saved orders with a fresh-id counter, and the order-line write
 * service, whose internals are not modelled and which only records the calls
 * it receives.
 */
module Collaborators {
  import opened Domain

  /** Saved orders in the order they were saved; `nextId` is the id the next save assigns. */
  class OrderRepository {
    var orders: seq<Order>
    var nextId: int

    /** Ids grow strictly in save order and stay below `nextId`, so every id is fresh. */
    ghost predicate Valid()
      reads this
    {
      && (forall i, j :: 0 <= i < j < |orders| ==> orders[i].id < orders[j].id)
      && (forall i :: 0 <= i < |orders| ==> orders[i].id < nextId)
    }

    constructor ()
      ensures Valid() && orders == [] && nextId == 1
    {
      orders := [];
      nextId := 1;
    }

    /** Saves the order under a fresh id and returns the saved order. */
    method Save(order: NewOrder) returns (saved: Order)
      requires Valid()
      modifies this
      ensures Valid()
      ensures saved == Order(old(nextId), order.user, order.orderPrice)
      ensures forall i :: 0 <= i < |old(orders)| ==> old(orders)[i].id != saved.id
      ensures orders == old(orders) + [saved] && nextId == old(nextId) + 1
    {
      saved := Order(nextId, order.user, order.orderPrice);
      orders := orders + [saved];
      nextId := nextId + 1;
    }
  }

  /** One request to materialise order lines for a saved order. */
  datatype OrderLineRequest = OrderLineRequest(userId: int, order: Order, selected: seq<CartProduct>)

  /** The order-line write service, seen only through the requests it receives. */
  class OrderProductWriteService {
    var received: seq<OrderLineRequest>

    constructor ()
      ensures received == []
    {
      received := [];
    }

    method CreateOrderProductWithCart(userId: int, order: Order, selected: seq<CartProduct>)
      modifies this
      ensures received == old(received) + [OrderLineRequest(userId, order, selected)]
    {
      received := received + [OrderLineRequest(userId, order, selected)];
    }
  }
}

/**
 * The order-write service: turns the requested line items of a user's cart
 * into one saved order with their exact total price, then hands the saved
 * order and the selected items to the order-line write service.
 * The lookups it depends on are fixed for the service's lifetime; only the
 * order repository and the order-line service change.
 */
module OrderService {
  import opened Domain
  import opened Selection
  import opened Collaborators

  class OrderWriteService {
    /** The cart lookup: each user's cart, if the user has one. */
    const carts: map<int, Cart>
    /** The line-item repository: each cart id's line items, in repository order. */
    const cartProducts: map<int, seq<CartProduct>>
    /** The user lookup. */
    const users: map<int, User>
    const orderRepository: OrderRepository
    const orderProductWriteService: OrderProductWriteService

    ghost predicate Valid()
      reads this, orderRepository
    {
      orderRepository.Valid()
    }

    constructor (carts: map<int, Cart>, cartProducts: map<int, seq<CartProduct>>, users: map<int, User>,
                 orderRepository: OrderRepository, orderProductWriteService: OrderProductWriteService)
      requires orderRepository.Valid()
      ensures Valid()
      ensures this.carts == carts && this.cartProducts == cartProducts && this.users == users
      ensures this.orderRepository == orderRepository
      ensures this.orderProductWriteService == orderProductWriteService
    {
      this.carts := carts;
      this.cartProducts := cartProducts;
      this.users := users;
      this.orderRepository := orderRepository;
      this.orderProductWriteService := orderProductWriteService;
    }

    /** The line items of a cart; a cart with no stored items has none. */
    function FindAllByCartId(cartId: int): seq<CartProduct>
    {
      if cartId in cartProducts then cartProducts[cartId] else []
    }

    /**
     * Checks out the requested line items of the user's cart. Fails with
     * CartNotFound when the user has no cart, with CartProductNotFound when a
     * requested id is not one of the cart's line-item ids, and with
     * UserNotFound when the user lookup fails; each failure happens before
     * anything is saved. On success exactly one order is saved, for the user,
     * priced at the total of the selected items, the order-line service
     * receives that order with the same selection, and the order's id is returned.
     */
    method CreateOrderWithCart(userId: int, cartProductIdList: seq<int>) returns (r: Result<int>)
      requires Valid()
      modifies orderRepository, orderProductWriteService
      ensures Valid()
      ensures userId !in carts ==> r == Err(CartNotFound)
      ensures userId in carts && !ContainsAll(IdSet(FindAllByCartId(carts[userId].id)), cartProductIdList)
              ==> r == Err(CartProductNotFound)
      ensures userId in carts && ContainsAll(IdSet(FindAllByCartId(carts[userId].id)), cartProductIdList)
              && userId !in users
              ==> r == Err(UserNotFound)
      ensures userId in carts && ContainsAll(IdSet(FindAllByCartId(carts[userId].id)), cartProductIdList)
              && userId in users
              ==> r.Ok?
      ensures r.Err? ==> unchanged(orderRepository) && unchanged(orderProductWriteService)
      ensures r.Ok? ==>
        && userId in carts && userId in users
        && var selected := Select(FindAllByCartId(carts[userId].id), cartProductIdList);
           var saved := Order(old(orderRepository.nextId), users[userId], TotalPrice(selected));
           && r.value == saved.id
           && (forall i :: 0 <= i < |old(orderRepository.orders)| ==> old(orderRepository.orders)[i].id != r.value)
           && orderRepository.orders == old(orderRepository.orders) + [saved]
           && orderRepository.nextId == old(orderRepository.nextId) + 1
           && orderProductWriteService.received
              == old(orderProductWriteService.received) + [OrderLineRequest(userId, saved, selected)]
    {
      if userId !in carts {
        return Err(CartNotFound);
      }
      var cart := carts[userId];
      var cartProductList := FindAllByCartId(cart.id);
      if !ContainsAll(IdSet(cartProductList), cartProductIdList) {
        return Err(CartProductNotFound);
      }
      var selectedCartProductList := Select(cartProductList, cartProductIdList);
      var totalPrice := TotalPrice(selectedCartProductList);
      if userId !in users {
        return Err(UserNotFound);
      }
      var user := users[userId];
      var savedOrder := orderRepository.Save(NewOrder(user, totalPrice));
      orderProductWriteService.CreateOrderProductWithCart(userId, savedOrder, selectedCartProductList);
      r := Ok(savedOrder.id);
    }
  }

  /**
   * A cart with A (10.00 times 2) and B (5.50 times 1): selecting A saves one
   * order of 20.00 and passes [A] on; asking for an id of another cart saves
   * nothing; checking out the same selection again saves a second, distinct
   * order; a user without a cart gets CartNotFound.
   */
  method CheckoutScenarios()
  {
    var a := CartProduct(1, Product(100, 1000), 2);
    var b := CartProduct(2, Product(200, 550), 1);
    var repository := new OrderRepository();
    var lines := new OrderProductWriteService();
    var service := new OrderWriteService(map[7 := Cart(70, 7)], map[70 := [a, b]], map[7 := User(7)],
                                         repository, lines);

    assert IdSet([a, b]) == {1, 2} by {
      assert a in [a, b] && b in [a, b];
    }
    assert Select([a, b], [1]) == [a];
    assert TotalPrice([a]) == 2000;
    assert 3 in RequestedSet([1, 3]);
    var first := service.CreateOrderWithCart(7, [1]);
    assert first == Ok(1);
    assert repository.orders == [Order(1, User(7), 2000)];
    assert lines.received == [OrderLineRequest(7, Order(1, User(7), 2000), [a])];

    var foreign := service.CreateOrderWithCart(7, [1, 3]);
    assert foreign == Err(CartProductNotFound);
    assert |repository.orders| == 1;

    var second := service.CreateOrderWithCart(7, [1]);
    assert second == Ok(2);
    assert second != first;
    assert |repository.orders| == 2;

    var noCart := service.CreateOrderWithCart(8, []);
    assert noCart == Err(CartNotFound);
  }
}

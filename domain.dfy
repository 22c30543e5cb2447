/**
 * Value types of the checkout slice: products, cart line items, carts, users
 * and orders, and the tagged application error the service raises.
 * Prices are exact amounts in minor currency units (no rounding anywhere).
 */
module Domain {

  /** A catalogue product; only its unit price matters to checkout. */
  datatype Product = Product(id: int, price: int)

  /** One line item of a cart: a product and how many of it. */
  datatype CartProduct = CartProduct(id: int, product: Product, quantity: int)

  /** A user's cart; its line items are looked up by the cart's id. */
  datatype Cart = Cart(id: int, userId: int)

  datatype User = User(id: int)

  /** An order as it is built before it is saved: it has no id yet. */
  datatype NewOrder = NewOrder(user: User, orderPrice: int)

  /** A saved order, carrying the id the repository assigned to it. */
  datatype Order = Order(id: int, user: User, orderPrice: int)

  /** The reason codes the checkout can fail with. */
  datatype ResultCode = CartNotFound | CartProductNotFound | UserNotFound

  /** Either the value of a successful call or the reason code it failed with. */
  datatype Result<T> = Ok(value: T) | Err(code: ResultCode)
}

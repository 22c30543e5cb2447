# Checkout of a cart into an order

This project models the checkout of the potato e-commerce backend: the order-write
service turns a user's chosen cart line items into one saved order. Given the user's
id and a list of requested cart line-item ids, the service

1. looks up the user's cart and fails with `CART_NOT_FOUND` if there is none;
2. loads the cart's line items and fails with `CART_PRODUCT_NOT_FOUND` unless every
   requested id is the id of one of them;
3. keeps the cart's line items whose id was requested, in the cart's order;
4. prices them exactly: the sum of unit price times quantity, starting from zero;
5. looks up the user, saves one order for that user with that total, hands the saved
   order and the selected items to the order-line write service, and returns the
   saved order's id.

Files:

- `domain.dfy` (module `Domain`): products, cart line items, carts, users, orders
  before and after saving, the reason codes, and a `Result` type for failures.
  Prices are `int` amounts in minor currency units, so arithmetic is exact, as it is
  with the source's decimal arithmetic.
- `selection.dfy` (module `Selection`): the pure stream pipelines as functions: the
  containment test (`ContainsAll`), the filter (`Select`) and the fold of line totals
  (`TotalPrice`), with the lemmas about them. `IdSet` is the collection of the cart's
  line-item ids into a set at OrderWriteService.java:40, and `LineTotal` is the map step
  of OrderWriteService.java:66, unit price times quantity.
- `collaborators.dfy` (module `Collaborators`): the order repository as a class
  holding the saved orders and a fresh-id counter, and the order-line write service
  as a class that records each request it receives.
- `order_write_service.dfy` (module `OrderService`): the service as a class whose
  lookups are fixed (`const`) and whose checkout method changes only the repository
  and the order-line service. `FindAllByCartId` is the line-item lookup of
  OrderWriteService.java:38. A client method, `CheckoutScenarios`, makes four
  example calls: three checkouts on a two-item cart (a valid selection, a request
  naming an item of another cart, the valid selection again) and one for a user
  with no cart.

The code keeps the cart's order in the selection; the model does the same and proves
it (`SelectIsSubsequence`).

## Model

| member | source | states |
|---|---|---|
| `Selection.ContainsAll` | src/main/java/potato/potatoAPIserver/order/service/OrderWriteService.java:40 | the check passes exactly when the set of requested ids is contained in the set of the cart's line-item ids (both directions) |
| `Selection.Select` | src/main/java/potato/potatoAPIserver/order/service/OrderWriteService.java:44-46 | an item is in the selection if and only if it is one of the cart's items and its id is requested; the selection is no longer than the cart |
| `Selection.SelectIsSubsequence` | src/main/java/potato/potatoAPIserver/order/service/OrderWriteService.java:44-46 | the selection is a subsequence of the cart's items: their original order is kept |
| `Selection.SelectCount` | src/main/java/potato/potatoAPIserver/order/service/OrderWriteService.java:44-46 | each item occurs in the selection as often as in the cart if its id is requested and not at all otherwise, so a repeated requested id never repeats an item |
| `Selection.SelectUsesOnlyRequestedSet` | src/main/java/potato/potatoAPIserver/order/service/OrderWriteService.java:44-46 | two requests with the same set of ids select the same items: the order and repetition of requested ids do not matter |
| `Selection.SelectNothing` | src/main/java/potato/potatoAPIserver/order/service/OrderWriteService.java:44-48 | an empty request selects nothing, and the total of that selection is zero |
| `Selection.SelectKeepsDistinct` | src/main/java/potato/potatoAPIserver/order/service/OrderWriteService.java:44-46 | if the cart's line-item ids are distinct, so are the selected items' ids |
| `Selection.SelectedIdsMatchRequest` | src/main/java/potato/potatoAPIserver/order/service/OrderWriteService.java:40-46 | once the containment check passes, the set of selected ids equals the set of requested ids; with distinct cart ids there is exactly one selected item per distinct requested id |
| `Selection.TotalPriceAppend` | src/main/java/potato/potatoAPIserver/order/service/OrderWriteService.java:64-67 | the total of a concatenation is the sum of the totals of its parts |
| `Selection.TotalPrice` | src/main/java/potato/potatoAPIserver/order/service/OrderWriteService.java:64-67 | the reduce from zero in list order equals the sum of unit price times quantity over the items (an independent head-first sum), and an empty selection totals zero |
| `Selection.SelectionTotalBounded` | src/main/java/potato/potatoAPIserver/order/service/OrderWriteService.java:44-67 | with no negative prices or quantities, the total of any selection lies between zero and the total of the whole cart |
| `Collaborators.OrderRepository.Save` | src/main/java/potato/potatoAPIserver/order/service/OrderWriteService.java:57 | saving appends exactly one order carrying the given user and price under an id no earlier order has, and advances the id counter; ids stay strictly increasing |
| `Collaborators.OrderProductWriteService.CreateOrderProductWithCart` | src/main/java/potato/potatoAPIserver/order/service/OrderWriteService.java:59 | the order-line service receives exactly one request carrying the user id, the saved order and the selected items |
| `OrderService.OrderWriteService.CreateOrderWithCart` | src/main/java/potato/potatoAPIserver/order/service/OrderWriteService.java:34-62 | no cart fails with CartNotFound; a requested id outside the cart fails with CartProductNotFound; an unknown user fails with UserNotFound; every failure leaves the repository and the order-line service unchanged; the call succeeds exactly when all three checks pass, and then one order with a fresh id, the user and the total of the selection is saved, the order-line service receives that order and the same selection, and the returned id is the saved order's id; cart and line-item data are read-only (`const`) |

## Left out

- The OAuth2 access-token data holder: it has one string field and no behaviour.
- Framework transactions: the model shows only that every failure of the service
  itself happens before anything is saved. Rollback of a saved order when a later
  step fails is not modelled.
- `OrderService.OrderWriteService.CreateOrderWithCart`: the order-line write service
  always succeeds in the model. Its internals are not part of this model; a failure
  there, and the rollback that would follow, is not captured.
- The user lookup is a fixed map. An absent user gives `UserNotFound`; how that
  collaborator really signals the failure is not part of this model.
- The cart lookup and the line-item repository are fixed maps. A cart id with no
  stored items yields an empty list. Repository internals and id assignment beyond a
  counter starting at 1 are not modelled.
- HTTP status codes carried by the exception, null requests, and concurrent
  checkouts of the same cart are not modelled.
- Decimal scale and precision are not modelled: prices are exact integer minor units.

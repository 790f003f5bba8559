# inventory-tracker: the linking models, the Employee hooks and the two middlewares

This project is a Dafny model of the domain core of the inventory-tracker service. Four
Mongoose model objects link a child record to its parent:

- `CartOrder` links its `CartProduct`s.
- `InventoryOrder` links its `InventoryProduct`s.
- `Customer` links its `CartOrder`s.
- `Store` links its employees and its incoming inventory orders.

Each link operation finds the parent and stamps the parent's id on the child. It then creates
the child, pushes the child's id onto the parent's list and saves the parent. Each remove
operation deletes the child and splices its id out of the parent's list. The model also covers:

- the Employee `pre('save')` hook;
- the `generateFindHash` retry loop;
- the Basic authentication middleware;
- the error middleware that chooses the HTTP reply.

How the model is built:

- **Database.** The database is an in-memory `Persistence.Ledger` class. It holds one map per
  collection and one counter that hands out fresh ObjectIds. `Insert*`, `Put*` and `Delete*`
  stand for `new X(doc).save()`, `doc.save()` and `findByIdAndRemove`.
- **Model objects.** Each model object is a class holding a reference to the ledger and its
  scratch fields (`tempOrder`, `tempProduct`, `tempStore`, ...). A scratch field is a `Slot`: it
  is `Undefined` before its first assignment, `Empty` when it holds `null`, and
  `Held(doc)` otherwise. The request bodies that the source writes onto (`product.cartOrderID`,
  `order.customerID`, ...) are classes too, and the methods' frames name exactly the fields that
  change.
- **Outcomes.** A promise is `Resolved(value)` or `Rejected(error)`. An error carries a name, an
  optional status and a message. The trailing
  `.catch(err => Promise.reject(createError(404, err.message)))` becomes `Http.NotFoundFrom`.
- **Validation.** A required String path must be a non-empty string. Any other required path
  must be set. Saving a parent that is already stored validates it again.
- **Un-awaited saves.** The remove operations do not await their last `save()`. Its effect is
  applied when the document is valid, and its outcome never reaches the caller.
- **Side-effecting calls.** Base64 decoding (`new Buffer(s, 'base64').toString()`) is the
  parameter `decode`. The draws of `crypto.randomBytes(32).toString('hex')` are the parameter
  `hex`, indexed by attempt. How each `save()` settles is the parameter `save`, indexed by
  attempt.

Every parent list is linked to the owner reference on its children. `Links.Consistent` states
the invariant for such a pair: every listed id names an existing child whose owner reference
points back at the listing parent, and no list repeats an id. Each link operation preserves it
for the pair it links:

- `CartOrder.addCartProduct`: cart orders and cart products;
- `InventoryOrder.addInventoryProduct`: inventory orders and inventory products;
- `Customer.addCartOrder`: customers and cart orders;
- `Store.addInventoryProduct`: stores and inventory orders.

The last two also create an order whose own child list (`products`, `inventories`) is copied
from the request body unchecked. For the order/product pair that creation keeps the invariant
exactly when the body lists distinct products already owned by the new order, so an empty list
keeps it and a list naming another order's product breaks it
(`CartOrderModel.NewOrderKeeps`, `InventoryOrderModel.NewOrderKeeps`). The remove operations
preserve the invariant of their pair unless the parent fails re-validation.
`Store.removeInventoryOrder` breaks it whenever the removed order is listed.

`Store.removeInventoryOrder` (model/store.js:149) splices `store.currentOrders`, a path the
Store schema (model/store.js:11-53) does not declare, so `store.incoming` is never changed and
the call always rejects (see Findings).

## Model

| member | source | states |
|---|---|---|
| JsArray.IndexOf | model/cart-order.js:48 | the result is -1 exactly when the element is absent; otherwise it is the first position holding the element |
| JsArray.SpliceOne | model/cart-order.js:48 | `splice(start, 1)` removes the element at a start inside the array; a start of -1 removes the last element; an empty array stays empty |
| JsArray.SpliceOut | model/inventory-order.js:46 | `splice(indexOf(x), 1)` removes the first occurrence of a present id, taking exactly one copy out of the multiset; for an absent id it removes the LAST element |
| Ids.FindById | model/cart-order.js:23 | `findById` rejects an id that does not cast, finds the stored document under a well-formed id, and gives null otherwise |
| Ids.FindByRef | model/inventory-order.js:44 | `findById(undefined)` gives null; a set reference is looked up as a stored key |
| Http.CreateError | model/cart-order.js:35 | `createError(status, message)` carries that status, that message and the class name `http-errors` gives the status; the name tells the status back (400 BadRequestError, 401 UnauthorizedError, 404 NotFoundError, 500 InternalServerError) |
| Http.StatusTable | lib/error-middleware.js:12-27 | each status the core uses has its own class name, so two created errors have the same name exactly when they have the same status |
| Http.NotFoundFrom | model/cart-order.js:35 | the trailing catch turns any error into a 404 `NotFoundError` with the same message |
| Schemas.ValidateCartProduct | model/cart.js:6-11 | a cart product is stored exactly when name and desc are non-empty and quantity and cartOrderID are set; it holds those values |
| Schemas.ValidateInventoryProduct | model/inventory.js:6-12 | an inventory product is stored exactly when name and desc are non-empty and quantity is set; `category`, `price` and both references are kept as given |
| Schemas.ValidateCartOrder | model/cart-order.js:9-16 | a cart order is stored exactly when both shipping strings are non-empty and customerID is set; its product list is kept |
| Schemas.ValidateInventoryOrder | model/inventory-order.js:11-14 | an inventory order is stored exactly when storeID is set; its inventories are kept |
| Schemas.ValidateEmployee | model/employee.js:13-22 | an employee is stored exactly when name, email and password are non-empty and admin is set; every field is kept |
| Links.SpliceOutAppended | model/cart-order.js:30 | splicing out an id that was just pushed, and was not in the list before, gives the list back |
| Links.SpliceOutKeeps | model/customer.js:105 | in a list without repeats, splicing out leaves a list without repeats that no longer holds the id and holds only ids of the old list, whichever position indexOf picks |
| Links.LinkThenUnlink | model/cart-order.js:29-48 | in a consistent ledger, pushing a fresh child id and splicing it out again gives back the owner's list, and inserting then deleting the child gives back the children |
| Links.LinkKeeps | model/cart-order.js:27-32 | creating a child and pushing its fresh id onto its owner's list keeps the ledger consistent |
| Links.UnlinkedChildKeeps | model/cart-order.js:27-35 | a child created when its parent's save then fails is listed nowhere, and consistency is kept |
| Links.UnlinkKeeps | model/cart-order.js:44-49 | deleting a child and splicing it out of its owner's list keeps the ledger consistent |
| Links.UnlistedRemovalKeeps | model/cart-order.js:44-46 | deleting a child that its owner does not list, or whose owner is missing, keeps the ledger consistent |
| Links.DanglingBreaks | model/store.js:145-150 | deleting a listed child without touching the list makes the ledger inconsistent |
| Links.StoredParentKeeps | model/customer.js:81-84 | storing a parent whose list is taken as given keeps the ledger consistent exactly when the list has no repeats and names only existing children the parent already owns |
| CartOrderModel.AddThenRemoveRestores | model/cart-order.js:20-52 | the state a successful addCartProduct leaves, followed by what removeCartProduct of the new product does, equals the state before |
| CartOrderModel.NewOrderKeeps | model/customer.js:81-84 | a cart order created with the `products` of the request body keeps order/product consistency exactly when that list has no repeats and names only products already stamped with the new key; an empty list always keeps it |
| CartOrderModel.Model.AddCartProduct | model/cart-order.js:20-36 | a malformed or unknown order id gives a 404 (cast error or TypeError message) and changes nothing; an invalid product gives a 404 and only the stamp and `tempOrder` change; a valid product is created under a fresh key and stamped with the order id; the order is saved with the key appended only if it re-validates, else a 404; the scratch fields hold the linked order and the product; consistency is preserved |
| CartOrderModel.Model.RemoveCartProduct | model/cart-order.js:38-52 | an unknown id sets `tempProduct` to null and gives a 404; a found product is always deleted; a missing order gives a 404 and leaves all orders unchanged; otherwise the call resolves and the order, if valid, loses the first occurrence (or, when absent, the last element) of the id; consistency is kept unless the order fails re-validation while still listing the id, and that case breaks it |
| InventoryOrderModel.Model.AddInventoryProduct | model/inventory-order.js:18-34 | as addCartProduct, but the order save cannot fail: a valid product is created, stamped, appended to `inventories` and resolved; consistency is preserved |
| InventoryOrderModel.Model.RemoveInventoryProduct | model/inventory-order.js:36-50 | the product is deleted; an unset or unknown order reference gives a 404; otherwise the id is spliced out of `inventories` and the call resolves; consistency is preserved |
| InventoryOrderModel.NewOrderKeeps | model/store.js:103-108 | an inventory order created with the `inventories` of the request body keeps order/product consistency exactly when that list has no repeats and names only products already stamped with the new key; an empty list always keeps it |
| CustomerModel.Defaulted | model/customer.js:79-80 | a truthy value is kept, a missing or empty one is replaced by the fallback, and the result is truthy exactly when the value or the fallback is, so a customer's non-empty address and name make the order's shipping paths pass `required` |
| CustomerModel.Model.AddCartOrder | model/customer.js:74-93 | the shipping address and name default to the customer's address and name; the customer's id is stamped; a valid customer always yields a valid order; an invalid order gives a 404; a valid one is created under a fresh key with the products of the body; the customer gets the key appended to `currentOrders` (pastOrders untouched) only if the customer re-validates; customer/order consistency is preserved |
| CustomerModel.Model.RemoveCartOrder | model/customer.js:95-109 | the order is deleted but its cart products are not; a missing customer gives a 404; otherwise the call resolves and a valid customer loses the order from `currentOrders`; consistency as for removeCartProduct |
| StoreModel.EmployeeToInsert | model/store.js:66 | an employee is inserted exactly when its draft validates; the stored record is the hook-normalised draft, whose roles are consistent |
| StoreModel.Model.FindByIdAndAddEmployee | model/store.js:58-76 | only a malformed id gives a 404; a missing store gives the raw TypeError, an invalid employee a raw ValidationError, and a taken username a raw MongoError, all leaving the collections unchanged; otherwise the employee is created and, if the store re-validates, appended to `employees` and resolved; else a raw ValidationError |
| StoreModel.Model.AddInventoryProduct | model/store.js:98-117 | an inventory order for the store is created and appended to `incoming` if the store re-validates; the call then resolves with the untouched `tempInventoryOrder`, not the order it created; failures are 404s; consistency is preserved |
| StoreModel.Model.RemoveInventoryOrder | model/store.js:139-153 | the call always rejects with a 404; a found order is deleted and left in `tempInventoryOrder`; no store changes, so a store that listed the order makes the ledger inconsistent |
| StoreModel.Model.StaleOrderAfterRemove | model/store.js:113-115 | after removing an order, the next successful addInventoryProduct on a valid store resolves with that deleted order |
| StoreModel.Model.AddIncomingOrder | model/store.js:98-117 | the corrected addInventoryProduct resolves exactly when the store exists and re-validates, with an order stored under a fresh key, owned by the store and listed in its `incoming`; consistency is preserved |
| StoreModel.Model.RemoveIncomingOrder | model/store.js:139-153 | the corrected removeInventoryOrder splices the order out of `incoming`; it keeps the ledger consistent, and so leaves the deleted order unlisted, unless the store fails re-validation |
| EmployeeModel.Normalised | model/employee.js:24-31 | an empty or missing username becomes the email; an admin gets both roles; a non-admin keeps its roles; all other fields are unchanged |
| EmployeeModel.NormalisedIsFixpoint | model/employee.js:24-31 | after the hook an admin holds both roles, and running the hook again changes nothing |
| EmployeeModel.HookKeepsValidity | model/employee.js:13-31 | the hook changes neither whether the document validates nor the stored name |
| EmployeeModel.SavesFrom | model/employee.js:57-76 | save is called at least once and at most five times in all |
| EmployeeModel.FirstSuccessWins | model/employee.js:65-73 | the first save that succeeds decides the resolved hash, after exactly that many attempts |
| EmployeeModel.GivesUpAfterFive | model/employee.js:69-72 | five failed saves reject with the fifth error, after exactly five attempts |
| EmployeeModel.ResolvesIffSomeSaveSucceeds | model/employee.js:57-76 | the promise resolves exactly when one of the first five saves succeeds |
| EmployeeModel.InvalidNeverSaves | model/employee.js:65-73 | a document that fails validation makes all five saves reject, so the loop rejects with a ValidationError after exactly five saves |
| EmployeeModel.ValidSavesAsWritten | model/employee.js:65-73 | for a document that passes validation the loop settles, and counts its saves, exactly as the database writes decide |
| EmployeeModel.EmployeeDoc.PreSave | model/employee.js:24-31 | the hook rewrites the document's fields to their normalised form |
| EmployeeModel.EmployeeDoc.GenerateFindHash | model/employee.js:57-76 | the loop settles as the recursive definition says over the per-attempt outcomes, calls save between one and five times and leaves `findHash` at the draw of the last attempt; a document that fails validation is rejected with a ValidationError after five saves and keeps its fields, because the hook never runs; a valid one settles as its writes do and ends with normalised fields |
| BasicAuth.Find | lib/basic-auth-middleware.js:14 | the position found is an occurrence of the separator and no earlier position is; none means the separator does not occur |
| BasicAuth.JoinSplit | lib/basic-auth-middleware.js:22 | joining the parts of `split(sep)` with `sep` gives the text back |
| BasicAuth.SplitPartsAreFree | lib/basic-auth-middleware.js:22 | no part of `split(sep)` contains the separator |
| BasicAuth.FirstPart | lib/basic-auth-middleware.js:25 | `split(sep)[0]` is the text before the first separator, or all of it |
| BasicAuth.SecondPart | lib/basic-auth-middleware.js:14 | `split(sep)[1]` is undefined without a separator, and is otherwise the text between the first and second separators |
| BasicAuth.PasswordStopsAtSecondColon | lib/basic-auth-middleware.js:22-27 | the parsed username always agrees with RFC 7617; the password agrees exactly when the text after the first colon has no colon, and is otherwise cut at that colon |
| BasicAuth.FirstColonAfter | lib/basic-auth-middleware.js:22 | in a user-id without a colon followed by `:` and any text, the first colon is the one right after the user-id |
| BasicAuth.TruncatedPassword | lib/basic-auth-middleware.js:22-27 | `user:pass:rest` with a colon-free user and password parses to password `pass`, where RFC 7617 reads `pass:rest` (for instance `admin:pa:ss` gives `pa`, not `pa:ss`) |
| BasicAuth.Rfc7617RoundTrip | lib/basic-auth-middleware.js:22-27 | RFC 7617 parsing gives back any colon-free user-id and any password joined by a colon |
| BasicAuth.Decide | lib/basic-auth-middleware.js:9-37 | every failure is a 401; a pass means credentials with a non-empty username and a non-empty password |
| BasicAuth.ChecksInOrder | lib/basic-auth-middleware.js:9-37 | a missing header is reported first, then a missing credential segment, then an empty username, then a missing password (each with its message); credentials are recorded once a segment exists; the request passes exactly when no check fires |
| BasicAuth.SegmentAfterFirstScheme | lib/basic-auth-middleware.js:14 | the credential segment is the text after the first `Basic `, wherever it stands, up to the next `Basic ` |
| BasicAuth.SchemeNeedNotLead | lib/basic-auth-middleware.js:14 | the header `xBasic YTpi` yields the segment `YTpi` |
| BasicAuth.BasicAuthMiddleware | lib/basic-auth-middleware.js:6-38 | next is called exactly once, with the decision's error or with nothing; `req.auth` is written exactly when a credential segment exists |
| ErrorMiddleware.ReplyFor | lib/error-middleware.js:12-27 | a non-zero status wins and is sent with the error's name; otherwise the reply is 400 `BadRequestError` exactly for a ValidationError, and 500 `InternalServerError` for anything else |
| ErrorMiddleware.NotFoundIsAnswered404 | lib/error-middleware.js:12-16 | every error the linking operations wrap is answered 404 `NotFoundError` |
| ErrorMiddleware.UnwrappedErrorsAnswered | lib/error-middleware.js:18-27 | the raw TypeError, MongoError and CastError are answered 500; a raw ValidationError is answered 400 |
| ErrorMiddleware.HandleError | lib/error-middleware.js:6-28 | one reply, the one ReplyFor chooses, is sent, and next is called once, without an error |

## Left out

- Mongoose casting beyond one rule: an id is either malformed (the lookup rejects with a
  CastError) or a key. Strict-mode dropping of unknown paths is left out. So are type casts of
  values and the exact text of error messages: an error's message is kept as an opaque value.
- Unique indexes other than Employee `username`: Customer `username` and `email`, and Store
  `storeNumber`. Saving under those never fails in the model.
- Concurrency: each promise chain runs to completion before the next call. An un-awaited
  `save()` in a remove operation takes effect before the call settles.
- Password hashing and checking (`hashPassword`, `validatePassword`, bcrypt), `generateToken`
  and JWT signing, and the bearer-token middleware. They are foreign calls.
- Base64 decoding and `crypto.randomBytes` are parameters. `console.log` and `debug` output are
  not modelled.
- The routes, the server and everything over HTTP besides the two middlewares.
- `CartOrder.updateCartProduct` (route/cart-product-route.js:45) and `Store.addInventoryOrder`
  (route/inventory-order-route.js:17) are called by routes, but no model file defines them.
  model/inventory-products.js is not part of this model.
- Schemas.ValidateInventoryProduct: model/inventory-order.js stores products with the schema of
  model/inventory.js. That file does not parse as written (`{ Schema.Types.ObjectId }`), so the
  model takes its required paths (name, desc, quantity). It keeps `category` and `price` as
  optional extras: model/inventory.js does not declare them, and model/inventory-product.js
  requires both. It keeps the reference under the name `inventoryOrderID` that the link
  operations write.
- model/employee.js exports with `mongoose.module`, which is not a Mongoose function. The model
  assumes the intended `mongoose.model`.
- Employee `storeID`: findByIdAndAddEmployee writes it onto the request body, but the Employee
  schema has no such path, so it is not stored. The model therefore states no consistency
  invariant for `store.employees`.
- EmployeeModel.EmployeeDoc.GenerateFindHash: `findHash` is not a schema path. Validation is
  the required-path check of `Schemas.ValidateEmployee`, run before the hook as Mongoose does.
  How the write of a valid document settles (the unique `username` index, the connection) is
  the parameter `save`, one outcome per attempt; whether a retry sees earlier draws is outside
  the model.
- CustomerModel.Model.RemoveCartOrder: the cascade to the order's CartProducts is left out,
  because the source does not delete them.

## Findings

| source | as written | input that shows it | evidently intended | confidence | as-written member | corrected member |
|---|---|---|---|---|---|---|
| model/store.js:113-115 | addInventoryProduct resolves with `this.tempInventoryOrder`, which it never assigns | remove an inventory order, then add one to a valid store: the call resolves with the deleted order | resolve with `this.tempInventory`, the order just created | high, not executed | StoreModel.Model.StaleOrderAfterRemove | StoreModel.Model.AddIncomingOrder |
| model/store.js:149 | removeInventoryOrder splices `store.currentOrders`, a path the Store schema does not have, so it always rejects and the store keeps the id | a store whose `incoming` lists order k; removing k leaves k listed | splice `store.incoming` and save the store | high, not executed | StoreModel.Model.RemoveInventoryOrder | StoreModel.Model.RemoveIncomingOrder |
| lib/basic-auth-middleware.js:22-27 | the password is `split(':')[1]`, which stops at a second colon | credentials `admin:pa:ss` give password `pa` | section 2 of RFC 7617: the password is all the text after the first colon | medium, not executed | BasicAuth.TruncatedPassword | BasicAuth.Rfc7617RoundTrip |

The as-written members model the code. The corrected members stand beside them, with the
intended property proved: the corrected store operations keep `Links.Consistent`, and RFC 7617
parsing is the inverse of writing `user:password`.

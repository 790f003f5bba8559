/** The record shapes and `required` paths of the Mongoose schemas. A draft is the plain object
    handed to `new Model(draft)` (any path may be unset); a record is what a successful `save`
    stores. A required String path must be set and non-empty; a required Number, Boolean or
    ObjectId path must be set. Casting and strict-mode dropping are not modelled. */
module Schemas {
  import opened Ids

  // model/cart.js
  datatype CartProductDraft = CartProductDraft(
    name: Option<string>, desc: Option<string>, quantity: Option<int>, cartOrderID: Option<nat>)
  datatype CartProduct = CartProduct(name: string, desc: string, quantity: int, cartOrderID: nat)

  function ValidateCartProduct(d: CartProductDraft): (r: Option<CartProduct>)
    ensures r.Some? <==> Truthy(d.name) && Truthy(d.desc) && d.quantity.Some? && d.cartOrderID.Some?
    ensures r.Some? ==>
      && d.name == Some(r.value.name) && d.desc == Some(r.value.desc)
      && d.quantity == Some(r.value.quantity) && d.cartOrderID == Some(r.value.cartOrderID)
  {
    if Truthy(d.name) && Truthy(d.desc) && d.quantity.Some? && d.cartOrderID.Some?
    then Some(CartProduct(d.name.value, d.desc.value, d.quantity.value, d.cartOrderID.value))
    else None
  }

  // model/inventory.js (required paths); `category` and `price` are kept as optional extras,
  // which model/inventory.js does not declare and model/inventory-product.js requires
  datatype InventoryProductDraft = InventoryProductDraft(
    name: Option<string>, desc: Option<string>, category: Option<string>, price: Option<int>,
    quantity: Option<int>, inventoryOrderID: Option<nat>, storeID: Option<nat>)
  datatype InventoryProduct = InventoryProduct(
    name: string, desc: string, category: Option<string>, price: Option<int>,
    quantity: int, inventoryOrderID: Option<nat>, storeID: Option<nat>)

  function ValidateInventoryProduct(d: InventoryProductDraft): (r: Option<InventoryProduct>)
    ensures r.Some? <==> Truthy(d.name) && Truthy(d.desc) && d.quantity.Some?
    ensures r.Some? ==>
      && d.name == Some(r.value.name) && d.desc == Some(r.value.desc)
      && d.quantity == Some(r.value.quantity) && d.category == r.value.category
      && d.price == r.value.price && d.inventoryOrderID == r.value.inventoryOrderID
      && d.storeID == r.value.storeID
  {
    if Truthy(d.name) && Truthy(d.desc) && d.quantity.Some?
    then Some(InventoryProduct(d.name.value, d.desc.value, d.category, d.price,
                               d.quantity.value, d.inventoryOrderID, d.storeID))
    else None
  }

  // model/cart-order.js
  datatype CartOrderDraft = CartOrderDraft(
    shippingAddress: Option<string>, shippingName: Option<string>, customerID: Option<nat>,
    products: seq<nat>)
  datatype CartOrder = CartOrder(
    shippingAddress: string, shippingName: string, customerID: nat, products: seq<nat>)

  function ValidateCartOrder(d: CartOrderDraft): (r: Option<CartOrder>)
    ensures r.Some? <==> Truthy(d.shippingAddress) && Truthy(d.shippingName) && d.customerID.Some?
    ensures r.Some? ==>
      && d.shippingAddress == Some(r.value.shippingAddress)
      && d.shippingName == Some(r.value.shippingName) && d.customerID == Some(r.value.customerID)
      && r.value.products == d.products
  {
    if Truthy(d.shippingAddress) && Truthy(d.shippingName) && d.customerID.Some?
    then Some(CartOrder(d.shippingAddress.value, d.shippingName.value, d.customerID.value, d.products))
    else None
  }

  /** Re-validation when an already stored cart order is saved again. */
  predicate CartOrderValid(o: CartOrder) {
    o.shippingAddress != "" && o.shippingName != ""
  }

  // model/inventory-order.js
  datatype InventoryOrderDraft = InventoryOrderDraft(inventories: seq<nat>, storeID: Option<nat>)
  datatype InventoryOrder = InventoryOrder(inventories: seq<nat>, storeID: nat)

  function ValidateInventoryOrder(d: InventoryOrderDraft): (r: Option<InventoryOrder>)
    ensures r.Some? <==> d.storeID.Some?
    ensures r.Some? ==> r.value.inventories == d.inventories && d.storeID == Some(r.value.storeID)
  {
    if d.storeID.Some? then Some(InventoryOrder(d.inventories, d.storeID.value)) else None
  }

  // model/customer.js
  datatype Customer = Customer(
    name: string, username: string, email: string, password: string, address: string,
    currentOrders: seq<nat>, pastOrders: seq<string>)

  predicate CustomerValid(c: Customer) {
    c.name != "" && c.username != "" && c.email != "" && c.password != "" && c.address != ""
  }

  // model/store.js
  datatype Store = Store(
    name: string, storeNumber: string, address: string, timestamp: Option<int>,
    employees: seq<nat>, incoming: seq<nat>, outgoing: seq<nat>, current: seq<nat>)

  predicate StoreValid(s: Store) {
    s.name != "" && s.storeNumber != "" && s.address != "" && s.timestamp.Some?
  }

  // model/employee.js
  datatype EmployeeDraft = EmployeeDraft(
    name: Option<string>, username: Option<string>, email: Option<string>, password: Option<string>,
    admin: Option<bool>, shipping: Option<bool>, receiving: Option<bool>)
  datatype Employee = Employee(
    name: string, username: Option<string>, email: string, password: string,
    admin: bool, shipping: Option<bool>, receiving: Option<bool>)

  function ValidateEmployee(d: EmployeeDraft): (r: Option<Employee>)
    ensures r.Some? <==> Truthy(d.name) && Truthy(d.email) && Truthy(d.password) && d.admin.Some?
    ensures r.Some? ==>
      && d.name == Some(r.value.name) && d.username == r.value.username
      && d.email == Some(r.value.email) && d.password == Some(r.value.password)
      && d.admin == Some(r.value.admin) && d.shipping == r.value.shipping
      && d.receiving == r.value.receiving
  {
    if Truthy(d.name) && Truthy(d.email) && Truthy(d.password) && d.admin.Some?
    then Some(Employee(d.name.value, d.username, d.email.value, d.password.value,
                       d.admin.value, d.shipping, d.receiving))
    else None
  }

  /** The unique index on `username`: an insert fails when another employee already has it. */
  predicate UsernameTaken(employees: map<nat, Employee>, username: Option<string>) {
    exists k | k in employees :: employees[k].username == username
  }
}

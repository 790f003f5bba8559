/** model/customer.js: linking CartOrders to a Customer. The model object keeps the scratch
    fields `tempCustomer` and `tempOrder`. Password hashing is not part of this model. */
module CustomerModel {
  import opened Ids
  import opened Http
  import opened Schemas
  import opened JsArray
  import opened Persistence
  import opened Links

  /** A customer lists its open orders by id ... */
  function CurrentOrders(c: Customer): seq<nat> { c.currentOrders }

  /** ... and every cart order names its customer. */
  function OrderOwner(o: CartOrder): Option<nat> { Some(o.customerID) }

  /** The request body handed to `addCartOrder`; the source fills in the shipping defaults and
      writes `customerID` onto it. */
  class OrderInput {
    var shippingAddress: Option<string>
    var shippingName: Option<string>
    var customerID: Option<nat>
    var products: seq<nat>

    constructor (d: CartOrderDraft)
      ensures Draft() == d
    {
      shippingAddress, shippingName, customerID, products :=
        d.shippingAddress, d.shippingName, d.customerID, d.products;
    }

    function Draft(): CartOrderDraft
      reads this
    {
      CartOrderDraft(shippingAddress, shippingName, customerID, products)
    }
  }

  /** `if (!given) given = fallback`: a truthy value is kept, and the result is truthy exactly
      when the value or the fallback is, so a non-empty fallback makes the path pass `required`. */
  function Defaulted(given: Option<string>, fallback: string): (r: Option<string>)
    ensures Truthy(given) ==> r == given
    ensures !Truthy(given) ==> r == Some(fallback)
    ensures Truthy(r) <==> Truthy(given) || fallback != ""
  {
    if Truthy(given) then given else Some(fallback)
  }

  /** The `Customer` Mongoose model object. */
  class Model {
    const db: Ledger
    var tempCustomer: Slot<Customer>
    var tempOrder: Slot<CartOrder>

    constructor (db: Ledger)
      ensures this.db == db && tempCustomer == Undefined && tempOrder == Undefined
    {
      this.db := db;
      tempCustomer, tempOrder := Undefined, Undefined;
    }

    /** `Customer.addCartOrder(id, order)`: find the customer, default the shipping address and
        name from the customer's profile, stamp the customer's id, create the order, push its
        id onto `currentOrders`, save the customer. Every failure is reported as 404. */
    method AddCartOrder(id: Id, order: OrderInput) returns (r: Promise<Doc<CartOrder>>)
      requires db.Valid()
      modifies this, order`shippingAddress, order`shippingName, order`customerID
      modifies db`customers, db`cartOrders, db`nextKey
      ensures db.Valid()
      ensures !(id.WellFormed? && id.key in old(db.customers)) ==>
        && r == Rejected(NotFoundFrom(if id.Malformed? then CastError else TypeError))
        && db.customers == old(db.customers) && db.cartOrders == old(db.cartOrders)
        && order.Draft() == old(order.Draft())
        && tempCustomer == old(tempCustomer) && tempOrder == old(tempOrder)
      ensures id.WellFormed? && id.key in old(db.customers) ==>
        var c := old(db.customers)[id.key];
        var k := old(db.nextKey);
        var created := ValidateCartOrder(order.Draft());
        && order.shippingAddress == Defaulted(old(order.shippingAddress), c.address)
        && order.shippingName == Defaulted(old(order.shippingName), c.name)
        && order.customerID == Some(id.key)
        && order.products == old(order.products)
        // a valid customer supplies both shipping defaults, so its order always validates
        && (CustomerValid(c) ==> created.Some?)
        && (created.None? ==>
              && r == Rejected(NotFoundFrom(ValidationError))
              && db.customers == old(db.customers) && db.cartOrders == old(db.cartOrders)
              && tempCustomer == Held(Doc(id.key, c)) && tempOrder == old(tempOrder))
        && (created.Some? ==>
              var linked := c.(currentOrders := c.currentOrders + [k]);
              && k !in old(db.cartOrders)
              && db.cartOrders == old(db.cartOrders)[k := created.value]
              && created.value.customerID == id.key
              && linked.pastOrders == c.pastOrders
              && tempCustomer == Held(Doc(id.key, linked)) && tempOrder == Held(Doc(k, created.value))
              && (CustomerValid(c) ==>
                    && db.customers == old(db.customers)[id.key := linked]
                    && r == Resolved(Doc(k, created.value)))
              && (!CustomerValid(c) ==>
                    && db.customers == old(db.customers)
                    && r == Rejected(NotFoundFrom(ValidationError))))
      // linking keeps every listed order pointing back at the customer that lists it
      ensures Consistent(old(db.customers), old(db.cartOrders), CurrentOrders, OrderOwner) ==>
        Consistent(db.customers, db.cartOrders, CurrentOrders, OrderOwner)
    {
      ghost var customers0, orders0 := db.customers, db.cartOrders;
      var found := FindById(db.customers, id);
      if found.CastFailed? {
        return Rejected(NotFoundFrom(CastError));
      }
      if found.Null? {
        // `customer.address` on null
        return Rejected(NotFoundFrom(TypeError));
      }
      var customer := found.doc;
      order.shippingAddress := Defaulted(order.shippingAddress, customer.value.address);
      order.shippingName := Defaulted(order.shippingName, customer.value.name);
      order.customerID := Some(customer.id);
      tempCustomer := Held(customer);
      var created := ValidateCartOrder(order.Draft());
      if created.None? {
        return Rejected(NotFoundFrom(ValidationError));
      }
      var k := db.InsertCartOrder(created.value);
      var linked := customer.value.(currentOrders := customer.value.currentOrders + [k]);
      tempCustomer := Held(Doc(customer.id, linked));
      tempOrder := Held(Doc(k, created.value));
      if !CustomerValid(linked) {
        if Consistent(customers0, orders0, CurrentOrders, OrderOwner) {
          UnlinkedChildKeeps(customers0, orders0, CurrentOrders, OrderOwner, k, created.value);
        }
        return Rejected(NotFoundFrom(ValidationError));
      }
      db.PutCustomer(customer.id, linked);
      if Consistent(customers0, orders0, CurrentOrders, OrderOwner) {
        LinkKeeps(customers0, orders0, CurrentOrders, OrderOwner, customer.id, k, created.value, linked);
      }
      r := Resolved(tempOrder.doc);
    }

    /** `Customer.removeCartOrder(id)`: find and delete the order, then find its customer and
        splice the order's id out of `currentOrders`; the final save is not awaited. The
        order's CartProducts are not deleted: the frame leaves them out. */
    method RemoveCartOrder(id: Id) returns (r: Promise<()>)
      requires db.Valid()
      modifies this`tempOrder, db`customers, db`cartOrders
      ensures db.Valid()
      ensures !(id.WellFormed? && id.key in old(db.cartOrders)) ==>
        && r == Rejected(NotFoundFrom(if id.Malformed? then CastError else TypeError))
        && db.customers == old(db.customers) && db.cartOrders == old(db.cartOrders)
        && tempOrder == (if id.Malformed? then old(tempOrder) else Empty)
      ensures id.WellFormed? && id.key in old(db.cartOrders) ==>
        var o := old(db.cartOrders)[id.key];
        && db.cartOrders == old(db.cartOrders) - {id.key}
        && tempOrder == Held(Doc(id.key, o))
        && (o.customerID !in old(db.customers) ==>
              r == Rejected(NotFoundFrom(TypeError)) && db.customers == old(db.customers))
        && (o.customerID in old(db.customers) ==>
              var c := old(db.customers)[o.customerID];
              var unlinked := c.(currentOrders := SpliceOut(c.currentOrders, id.key));
              && r == Resolved(())
              && db.customers == if CustomerValid(c)
                                 then old(db.customers)[o.customerID := unlinked]
                                 else old(db.customers))
      // unlinking keeps the ledger consistent unless the customer fails re-validation, in which
      // case the deleted order's id stays listed
      ensures Consistent(old(db.customers), old(db.cartOrders), CurrentOrders, OrderOwner) ==>
        if id.WellFormed? && id.key in old(db.cartOrders)
           && old(db.cartOrders)[id.key].customerID in old(db.customers)
           && !CustomerValid(old(db.customers)[old(db.cartOrders)[id.key].customerID])
           && id.key in old(db.customers)[old(db.cartOrders)[id.key].customerID].currentOrders
        then !Consistent(db.customers, db.cartOrders, CurrentOrders, OrderOwner)
        else Consistent(db.customers, db.cartOrders, CurrentOrders, OrderOwner)
    {
      ghost var customers0, orders0 := db.customers, db.cartOrders;
      var found := FindById(db.cartOrders, id);
      if found.CastFailed? {
        return Rejected(NotFoundFrom(CastError));
      }
      if found.Null? {
        tempOrder := Empty;
        // `order._id` on null
        return Rejected(NotFoundFrom(TypeError));
      }
      tempOrder := Held(found.doc);
      db.DeleteCartOrder(found.doc.id);
      var owner := FindById(db.customers, WellFormed(found.doc.value.customerID));
      if !owner.Found? {
        if Consistent(customers0, orders0, CurrentOrders, OrderOwner) {
          UnlistedRemovalKeeps(customers0, orders0, CurrentOrders, OrderOwner, found.doc.id);
        }
        // `customer.currentOrders` on null
        return Rejected(NotFoundFrom(TypeError));
      }
      var unlinked := owner.doc.value.(currentOrders := SpliceOut(owner.doc.value.currentOrders, found.doc.id));
      if CustomerValid(unlinked) {
        db.PutCustomer(owner.doc.id, unlinked);
        if Consistent(customers0, orders0, CurrentOrders, OrderOwner) {
          UnlinkKeeps(customers0, orders0, CurrentOrders, OrderOwner, found.doc.id, owner.doc.id, unlinked);
        }
      } else if found.doc.id in owner.doc.value.currentOrders {
        DanglingBreaks(customers0, orders0, CurrentOrders, OrderOwner, owner.doc.id, found.doc.id);
      } else if Consistent(customers0, orders0, CurrentOrders, OrderOwner) {
        UnlistedRemovalKeeps(customers0, orders0, CurrentOrders, OrderOwner, found.doc.id);
      }
      r := Resolved(());
    }
  }
}

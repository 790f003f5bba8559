/** model/cart-order.js: linking CartProducts to a CartOrder. The model object keeps the
    scratch fields `tempOrder` and `tempProduct` between the steps of a promise chain. */
module CartOrderModel {
  import opened Ids
  import opened Http
  import opened Schemas
  import opened JsArray
  import opened Persistence
  import opened Links

  /** An order lists its products by id ... */
  function OrderProducts(o: CartOrder): seq<nat> { o.products }

  /** ... and every product names its order. */
  function ProductOwner(p: CartProduct): Option<nat> { Some(p.cartOrderID) }

  /** Round trip: the state `addCartProduct` leaves on success (product `k` created and pushed
      onto order `q`), followed by what `removeCartProduct(k)` then does (delete `k`, splice it
      out of the still valid order `q`), is the state before. */
  lemma AddThenRemoveRestores(orders: map<nat, CartOrder>, products: map<nat, CartProduct>,
                              q: nat, k: nat, p: CartProduct)
    requires Consistent(orders, products, OrderProducts, ProductOwner)
    requires q in orders && k !in products
    ensures var linked := orders[q].(products := orders[q].products + [k]);
      && orders[q := linked][q := linked.(products := SpliceOut(linked.products, k))] == orders
      && products[k := p] - {k} == products
  {
    LinkThenUnlink(orders, products, OrderProducts, ProductOwner, q, k, p);
    var order := orders[q];
    var linked := order.(products := order.products + [k]);
    assert linked.(products := SpliceOut(linked.products, k)) == order;
  }

  /** An order created with its `products` copied from a request body (`Customer.addCartOrder`) keeps the
      order/product ledger consistent exactly when that list has no repeats and names only
      existing products already stamped with the new key: an empty list always does, and a
      list naming another order's product never does. */
  lemma NewOrderKeeps(orders: map<nat, CartOrder>, products: map<nat, CartProduct>, k: nat, o: CartOrder)
    requires Consistent(orders, products, OrderProducts, ProductOwner)
    ensures Consistent(orders[k := o], products, OrderProducts, ProductOwner) <==>
      Distinct(o.products) && forall x | x in o.products :: x in products && products[x].cartOrderID == k
    ensures o.products == [] ==> Consistent(orders[k := o], products, OrderProducts, ProductOwner)
  {
    StoredParentKeeps(orders, products, OrderProducts, ProductOwner, k, o);
  }

  /** The request body handed to `addCartProduct`; the source writes `cartOrderID` onto it. */
  class ProductInput {
    var name: Option<string>
    var desc: Option<string>
    var quantity: Option<int>
    var cartOrderID: Option<nat>

    constructor (name: Option<string>, desc: Option<string>, quantity: Option<int>, cartOrderID: Option<nat>)
      ensures this.name == name && this.desc == desc && this.quantity == quantity
      ensures this.cartOrderID == cartOrderID
    {
      this.name, this.desc, this.quantity, this.cartOrderID := name, desc, quantity, cartOrderID;
    }

    function Draft(): CartProductDraft
      reads this
    {
      CartProductDraft(name, desc, quantity, cartOrderID)
    }
  }

  /** The `CartOrder` Mongoose model object. */
  class Model {
    const db: Ledger
    var tempOrder: Slot<CartOrder>
    var tempProduct: Slot<CartProduct>

    constructor (db: Ledger)
      ensures this.db == db && tempOrder == Undefined && tempProduct == Undefined
    {
      this.db := db;
      tempOrder, tempProduct := Undefined, Undefined;
    }

    /** `CartOrder.addCartProduct(id, product)`: find the order, stamp its id on the product,
        create the product, push its id onto `order.products`, save the order. Every failure
        is reported as 404. */
    method AddCartProduct(id: Id, product: ProductInput) returns (r: Promise<Doc<CartProduct>>)
      requires db.Valid()
      modifies this, product`cartOrderID, db`cartOrders, db`cartProducts, db`nextKey
      ensures db.Valid()
      // unknown or malformed order id: nothing is created, stamped or linked
      ensures !(id.WellFormed? && id.key in old(db.cartOrders)) ==>
        && r == Rejected(NotFoundFrom(if id.Malformed? then CastError else TypeError))
        && db.cartOrders == old(db.cartOrders) && db.cartProducts == old(db.cartProducts)
        && product.cartOrderID == old(product.cartOrderID)
        && tempOrder == old(tempOrder) && tempProduct == old(tempProduct)
      // the order exists: the product is stamped with its id
      ensures id.WellFormed? && id.key in old(db.cartOrders) ==>
        var order := old(db.cartOrders)[id.key];
        var created := ValidateCartProduct(old(product.Draft()).(cartOrderID := Some(id.key)));
        var k := old(db.nextKey);
        && product.cartOrderID == Some(id.key)
        && (created.None? ==>
              && r == Rejected(NotFoundFrom(ValidationError))
              && db.cartOrders == old(db.cartOrders) && db.cartProducts == old(db.cartProducts)
              && tempOrder == Held(Doc(id.key, order)) && tempProduct == old(tempProduct))
        && (created.Some? ==>
              var linked := order.(products := order.products + [k]);
              && k !in old(db.cartProducts)
              && db.cartProducts == old(db.cartProducts)[k := created.value]
              && created.value.cartOrderID == id.key
              && tempOrder == Held(Doc(id.key, linked)) && tempProduct == Held(Doc(k, created.value))
              && (CartOrderValid(order) ==>
                    && db.cartOrders == old(db.cartOrders)[id.key := linked]
                    && r == Resolved(Doc(k, created.value)))
              && (!CartOrderValid(order) ==>
                    && db.cartOrders == old(db.cartOrders)
                    && r == Rejected(NotFoundFrom(ValidationError))))
      // linking keeps every listed id pointing at a product owned by the listing order
      ensures Consistent(old(db.cartOrders), old(db.cartProducts), OrderProducts, ProductOwner) ==>
        Consistent(db.cartOrders, db.cartProducts, OrderProducts, ProductOwner)
    {
      ghost var orders0, products0 := db.cartOrders, db.cartProducts;
      var found := FindById(db.cartOrders, id);
      if found.CastFailed? {
        return Rejected(NotFoundFrom(CastError));
      }
      if found.Null? {
        // `order._id` on null
        return Rejected(NotFoundFrom(TypeError));
      }
      var order := found.doc;
      product.cartOrderID := Some(order.id);
      tempOrder := Held(order);
      var created := ValidateCartProduct(product.Draft());
      if created.None? {
        return Rejected(NotFoundFrom(ValidationError));
      }
      var k := db.InsertCartProduct(created.value);
      var linked := order.value.(products := order.value.products + [k]);
      tempOrder := Held(Doc(order.id, linked));
      tempProduct := Held(Doc(k, created.value));
      if !CartOrderValid(linked) {
        if Consistent(orders0, products0, OrderProducts, ProductOwner) {
          UnlinkedChildKeeps(orders0, products0, OrderProducts, ProductOwner, k, created.value);
        }
        return Rejected(NotFoundFrom(ValidationError));
      }
      db.PutCartOrder(order.id, linked);
      if Consistent(orders0, products0, OrderProducts, ProductOwner) {
        LinkKeeps(orders0, products0, OrderProducts, ProductOwner, order.id, k, created.value, linked);
      }
      r := Resolved(tempProduct.doc);
    }

    /** `CartOrder.removeCartProduct(id)`: find and delete the product, then find its order and
        splice the product's id out of `order.products`. The final `order.save()` is not
        awaited: the call resolves whether or not that save succeeds. */
    method RemoveCartProduct(id: Id) returns (r: Promise<()>)
      requires db.Valid()
      modifies this`tempProduct, db`cartOrders, db`cartProducts
      ensures db.Valid()
      // unknown or malformed product id: nothing changes
      ensures !(id.WellFormed? && id.key in old(db.cartProducts)) ==>
        && r == Rejected(NotFoundFrom(if id.Malformed? then CastError else TypeError))
        && db.cartOrders == old(db.cartOrders) && db.cartProducts == old(db.cartProducts)
        && tempProduct == (if id.Malformed? then old(tempProduct) else Empty)
      // the product exists: it is deleted whatever happens next
      ensures id.WellFormed? && id.key in old(db.cartProducts) ==>
        var p := old(db.cartProducts)[id.key];
        && db.cartProducts == old(db.cartProducts) - {id.key}
        && tempProduct == Held(Doc(id.key, p))
        && (p.cartOrderID !in old(db.cartOrders) ==>
              r == Rejected(NotFoundFrom(TypeError)) && db.cartOrders == old(db.cartOrders))
        && (p.cartOrderID in old(db.cartOrders) ==>
              var order := old(db.cartOrders)[p.cartOrderID];
              var unlinked := order.(products := SpliceOut(order.products, id.key));
              && r == Resolved(())
              && db.cartOrders == if CartOrderValid(order)
                                  then old(db.cartOrders)[p.cartOrderID := unlinked]
                                  else old(db.cartOrders))
      // unlinking keeps the ledger consistent unless the owning order fails re-validation, in
      // which case the deleted product's id stays listed
      ensures Consistent(old(db.cartOrders), old(db.cartProducts), OrderProducts, ProductOwner) ==>
        if id.WellFormed? && id.key in old(db.cartProducts)
           && old(db.cartProducts)[id.key].cartOrderID in old(db.cartOrders)
           && !CartOrderValid(old(db.cartOrders)[old(db.cartProducts)[id.key].cartOrderID])
           && id.key in old(db.cartOrders)[old(db.cartProducts)[id.key].cartOrderID].products
        then !Consistent(db.cartOrders, db.cartProducts, OrderProducts, ProductOwner)
        else Consistent(db.cartOrders, db.cartProducts, OrderProducts, ProductOwner)
    {
      ghost var orders0, products0 := db.cartOrders, db.cartProducts;
      var found := FindById(db.cartProducts, id);
      if found.CastFailed? {
        return Rejected(NotFoundFrom(CastError));
      }
      if found.Null? {
        tempProduct := Empty;
        // `product._id` on null
        return Rejected(NotFoundFrom(TypeError));
      }
      tempProduct := Held(found.doc);
      db.DeleteCartProduct(found.doc.id);
      var owner := FindById(db.cartOrders, WellFormed(found.doc.value.cartOrderID));
      if !owner.Found? {
        if Consistent(orders0, products0, OrderProducts, ProductOwner) {
          UnlistedRemovalKeeps(orders0, products0, OrderProducts, ProductOwner, found.doc.id);
        }
        // `order.products` on null
        return Rejected(NotFoundFrom(TypeError));
      }
      var unlinked := owner.doc.value.(products := SpliceOut(owner.doc.value.products, found.doc.id));
      if CartOrderValid(unlinked) {
        db.PutCartOrder(owner.doc.id, unlinked);
        if Consistent(orders0, products0, OrderProducts, ProductOwner) {
          UnlinkKeeps(orders0, products0, OrderProducts, ProductOwner, found.doc.id, owner.doc.id, unlinked);
        }
      } else if found.doc.id in owner.doc.value.products {
        DanglingBreaks(orders0, products0, OrderProducts, ProductOwner, owner.doc.id, found.doc.id);
      } else if Consistent(orders0, products0, OrderProducts, ProductOwner) {
        UnlistedRemovalKeeps(orders0, products0, OrderProducts, ProductOwner, found.doc.id);
      }
      r := Resolved(());
    }

  }
}

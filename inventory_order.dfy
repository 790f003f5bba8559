/** model/inventory-order.js: linking InventoryProducts to an InventoryOrder. The model object
    keeps the scratch fields `tempOrder` and `tempProduct`. Neither operation touches a Store,
    a cart, or any quantity: the frames below leave them out. */
module InventoryOrderModel {
  import opened Ids
  import opened Http
  import opened Schemas
  import opened JsArray
  import opened Persistence
  import opened Links

  /** An order lists its products by id ... */
  function OrderInventories(o: InventoryOrder): seq<nat> { o.inventories }

  /** ... and a product may name its order. */
  function ProductOwner(p: InventoryProduct): Option<nat> { p.inventoryOrderID }

  /** An order created with its `inventories` copied from a request body (`Store.addInventoryProduct`) keeps the
      order/product ledger consistent exactly when that list has no repeats and names only
      existing products already stamped with the new key: an empty list always does, and a
      list naming another order's product never does. */
  lemma NewOrderKeeps(orders: map<nat, InventoryOrder>, products: map<nat, InventoryProduct>, k: nat, o: InventoryOrder)
    requires Consistent(orders, products, OrderInventories, ProductOwner)
    ensures Consistent(orders[k := o], products, OrderInventories, ProductOwner) <==>
      Distinct(o.inventories) && forall x | x in o.inventories :: x in products && products[x].inventoryOrderID == Some(k)
    ensures o.inventories == [] ==> Consistent(orders[k := o], products, OrderInventories, ProductOwner)
  {
    StoredParentKeeps(orders, products, OrderInventories, ProductOwner, k, o);
  }

  /** The request body handed to `addInventoryProduct`; the source writes `inventoryOrderID` onto it. */
  class ProductInput {
    var name: Option<string>
    var desc: Option<string>
    var category: Option<string>
    var price: Option<int>
    var quantity: Option<int>
    var inventoryOrderID: Option<nat>
    var storeID: Option<nat>

    constructor (d: InventoryProductDraft)
      ensures Draft() == d
    {
      name, desc, category, price := d.name, d.desc, d.category, d.price;
      quantity, inventoryOrderID, storeID := d.quantity, d.inventoryOrderID, d.storeID;
    }

    function Draft(): InventoryProductDraft
      reads this
    {
      InventoryProductDraft(name, desc, category, price, quantity, inventoryOrderID, storeID)
    }
  }

  /** The `InventoryOrder` Mongoose model object. */
  class Model {
    const db: Ledger
    var tempOrder: Slot<InventoryOrder>
    var tempProduct: Slot<InventoryProduct>

    constructor (db: Ledger)
      ensures this.db == db && tempOrder == Undefined && tempProduct == Undefined
    {
      this.db := db;
      tempOrder, tempProduct := Undefined, Undefined;
    }

    /** `InventoryOrder.addInventoryProduct(id, product)`: find the order, stamp its id on the
        product, create the product, push its id onto `order.inventories`, save the order
        (an InventoryOrder always passes validation: its one required path is a stored id).
        Every failure is reported as 404. */
    method AddInventoryProduct(id: Id, product: ProductInput) returns (r: Promise<Doc<InventoryProduct>>)
      requires db.Valid()
      modifies this, product`inventoryOrderID, db`inventoryOrders, db`inventoryProducts, db`nextKey
      ensures db.Valid()
      ensures !(id.WellFormed? && id.key in old(db.inventoryOrders)) ==>
        && r == Rejected(NotFoundFrom(if id.Malformed? then CastError else TypeError))
        && db.inventoryOrders == old(db.inventoryOrders)
        && db.inventoryProducts == old(db.inventoryProducts)
        && product.inventoryOrderID == old(product.inventoryOrderID)
        && tempOrder == old(tempOrder) && tempProduct == old(tempProduct)
      ensures id.WellFormed? && id.key in old(db.inventoryOrders) ==>
        var order := old(db.inventoryOrders)[id.key];
        var created := ValidateInventoryProduct(old(product.Draft()).(inventoryOrderID := Some(id.key)));
        var k := old(db.nextKey);
        && product.inventoryOrderID == Some(id.key)
        && (created.None? ==>
              && r == Rejected(NotFoundFrom(ValidationError))
              && db.inventoryOrders == old(db.inventoryOrders)
              && db.inventoryProducts == old(db.inventoryProducts)
              && tempOrder == Held(Doc(id.key, order)) && tempProduct == old(tempProduct))
        && (created.Some? ==>
              var linked := order.(inventories := order.inventories + [k]);
              && k !in old(db.inventoryProducts)
              && db.inventoryProducts == old(db.inventoryProducts)[k := created.value]
              && created.value.inventoryOrderID == Some(id.key)
              && created.value.quantity == old(product.quantity).value
              && db.inventoryOrders == old(db.inventoryOrders)[id.key := linked]
              && |linked.inventories| == |order.inventories| + 1
              && tempOrder == Held(Doc(id.key, linked)) && tempProduct == Held(Doc(k, created.value))
              && r == Resolved(Doc(k, created.value)))
      ensures Consistent(old(db.inventoryOrders), old(db.inventoryProducts), OrderInventories, ProductOwner) ==>
        Consistent(db.inventoryOrders, db.inventoryProducts, OrderInventories, ProductOwner)
    {
      ghost var orders0, products0 := db.inventoryOrders, db.inventoryProducts;
      var found := FindById(db.inventoryOrders, id);
      if found.CastFailed? {
        return Rejected(NotFoundFrom(CastError));
      }
      if found.Null? {
        // `order._id` on null
        return Rejected(NotFoundFrom(TypeError));
      }
      var order := found.doc;
      product.inventoryOrderID := Some(order.id);
      tempOrder := Held(order);
      var created := ValidateInventoryProduct(product.Draft());
      if created.None? {
        return Rejected(NotFoundFrom(ValidationError));
      }
      var k := db.InsertInventoryProduct(created.value);
      var linked := order.value.(inventories := order.value.inventories + [k]);
      tempOrder := Held(Doc(order.id, linked));
      tempProduct := Held(Doc(k, created.value));
      db.PutInventoryOrder(order.id, linked);
      if Consistent(orders0, products0, OrderInventories, ProductOwner) {
        LinkKeeps(orders0, products0, OrderInventories, ProductOwner, order.id, k, created.value, linked);
      }
      r := Resolved(tempProduct.doc);
    }

    /** `InventoryOrder.removeInventoryProduct(id)`: find and delete the product, then find its
        order and splice the product's id out of `order.inventories`; the final save is not
        awaited. */
    method RemoveInventoryProduct(id: Id) returns (r: Promise<()>)
      requires db.Valid()
      modifies this`tempProduct, db`inventoryOrders, db`inventoryProducts
      ensures db.Valid()
      ensures !(id.WellFormed? && id.key in old(db.inventoryProducts)) ==>
        && r == Rejected(NotFoundFrom(if id.Malformed? then CastError else TypeError))
        && db.inventoryOrders == old(db.inventoryOrders)
        && db.inventoryProducts == old(db.inventoryProducts)
        && tempProduct == (if id.Malformed? then old(tempProduct) else Empty)
      ensures id.WellFormed? && id.key in old(db.inventoryProducts) ==>
        var p := old(db.inventoryProducts)[id.key];
        var owner := p.inventoryOrderID;
        && db.inventoryProducts == old(db.inventoryProducts) - {id.key}
        && tempProduct == Held(Doc(id.key, p))
        && (!(owner.Some? && owner.value in old(db.inventoryOrders)) ==>
              r == Rejected(NotFoundFrom(TypeError)) && db.inventoryOrders == old(db.inventoryOrders))
        && (owner.Some? && owner.value in old(db.inventoryOrders) ==>
              var order := old(db.inventoryOrders)[owner.value];
              && r == Resolved(())
              && db.inventoryOrders == old(db.inventoryOrders)[owner.value :=
                   order.(inventories := SpliceOut(order.inventories, id.key))])
      // the save that follows the splice cannot fail, so unlinking always keeps the ledger consistent
      ensures Consistent(old(db.inventoryOrders), old(db.inventoryProducts), OrderInventories, ProductOwner) ==>
        Consistent(db.inventoryOrders, db.inventoryProducts, OrderInventories, ProductOwner)
    {
      ghost var orders0, products0 := db.inventoryOrders, db.inventoryProducts;
      var found := FindById(db.inventoryProducts, id);
      if found.CastFailed? {
        return Rejected(NotFoundFrom(CastError));
      }
      if found.Null? {
        tempProduct := Empty;
        // `product._id` on null
        return Rejected(NotFoundFrom(TypeError));
      }
      tempProduct := Held(found.doc);
      db.DeleteInventoryProduct(found.doc.id);
      var owner := FindByRef(db.inventoryOrders, found.doc.value.inventoryOrderID);
      if !owner.Found? {
        if Consistent(orders0, products0, OrderInventories, ProductOwner) {
          UnlistedRemovalKeeps(orders0, products0, OrderInventories, ProductOwner, found.doc.id);
        }
        // `order.inventories` on null
        return Rejected(NotFoundFrom(TypeError));
      }
      var unlinked := owner.doc.value.(inventories := SpliceOut(owner.doc.value.inventories, found.doc.id));
      db.PutInventoryOrder(owner.doc.id, unlinked);
      if Consistent(orders0, products0, OrderInventories, ProductOwner) {
        UnlinkKeeps(orders0, products0, OrderInventories, ProductOwner, found.doc.id, owner.doc.id, unlinked);
      }
      r := Resolved(());
    }
  }
}

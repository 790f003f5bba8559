/** The database underneath the models, as an in-memory ledger: one map from key to record per
    collection, and one counter that hands out fresh ObjectIds for all of them. */
module Persistence {
  import opened Schemas

  ghost predicate Below(keys: set<nat>, bound: nat) {
    forall k | k in keys :: k < bound
  }

  class Ledger {
    var stores: map<nat, Store>
    var customers: map<nat, Customer>
    var employees: map<nat, Employee>
    var cartOrders: map<nat, CartOrder>
    var cartProducts: map<nat, CartProduct>
    var inventoryOrders: map<nat, InventoryOrder>
    var inventoryProducts: map<nat, InventoryProduct>
    var nextKey: nat

    /** Every stored key was handed out by the counter. */
    ghost predicate Valid()
      reads this
    {
      && Below(stores.Keys, nextKey) && Below(customers.Keys, nextKey)
      && Below(employees.Keys, nextKey) && Below(cartOrders.Keys, nextKey)
      && Below(cartProducts.Keys, nextKey) && Below(inventoryOrders.Keys, nextKey)
      && Below(inventoryProducts.Keys, nextKey)
    }

    constructor ()
      ensures Valid() && nextKey == 0
      ensures stores == map[] && customers == map[] && employees == map[]
      ensures cartOrders == map[] && cartProducts == map[]
      ensures inventoryOrders == map[] && inventoryProducts == map[]
    {
      stores, customers, employees := map[], map[], map[];
      cartOrders, cartProducts := map[], map[];
      inventoryOrders, inventoryProducts := map[], map[];
      nextKey := 0;
    }

    /** `doc.save()` on a document already stored. */
    method PutStore(k: nat, v: Store)
      requires Valid() && k in stores
      modifies this`stores
      ensures Valid() && stores == old(stores)[k := v]
    {
      stores := stores[k := v];
    }

    /** `doc.save()` on a document already stored. */
    method PutCustomer(k: nat, v: Customer)
      requires Valid() && k in customers
      modifies this`customers
      ensures Valid() && customers == old(customers)[k := v]
    {
      customers := customers[k := v];
    }

    /** `new Employee(doc).save()`: store a document under a fresh ObjectId. */
    method InsertEmployee(v: Employee) returns (k: nat)
      requires Valid()
      modifies this`nextKey, this`employees
      ensures Valid() && k == old(nextKey) && k !in old(employees)
      ensures employees == old(employees)[k := v]
    {
      k := nextKey;
      nextKey := nextKey + 1;
      employees := employees[k := v];
    }

    /** `new CartOrder(doc).save()`: store a document under a fresh ObjectId. */
    method InsertCartOrder(v: CartOrder) returns (k: nat)
      requires Valid()
      modifies this`nextKey, this`cartOrders
      ensures Valid() && k == old(nextKey) && k !in old(cartOrders)
      ensures cartOrders == old(cartOrders)[k := v]
    {
      k := nextKey;
      nextKey := nextKey + 1;
      cartOrders := cartOrders[k := v];
    }

    /** `doc.save()` on a document already stored. */
    method PutCartOrder(k: nat, v: CartOrder)
      requires Valid() && k in cartOrders
      modifies this`cartOrders
      ensures Valid() && cartOrders == old(cartOrders)[k := v]
    {
      cartOrders := cartOrders[k := v];
    }

    /** The removal half of `findByIdAndRemove`. */
    method DeleteCartOrder(k: nat)
      requires Valid()
      modifies this`cartOrders
      ensures Valid() && cartOrders == old(cartOrders) - {k}
    {
      cartOrders := cartOrders - {k};
    }

    /** `new CartProduct(doc).save()`: store a document under a fresh ObjectId. */
    method InsertCartProduct(v: CartProduct) returns (k: nat)
      requires Valid()
      modifies this`nextKey, this`cartProducts
      ensures Valid() && k == old(nextKey) && k !in old(cartProducts)
      ensures cartProducts == old(cartProducts)[k := v]
    {
      k := nextKey;
      nextKey := nextKey + 1;
      cartProducts := cartProducts[k := v];
    }

    /** The removal half of `findByIdAndRemove`. */
    method DeleteCartProduct(k: nat)
      requires Valid()
      modifies this`cartProducts
      ensures Valid() && cartProducts == old(cartProducts) - {k}
    {
      cartProducts := cartProducts - {k};
    }

    /** `new InventoryOrder(doc).save()`: store a document under a fresh ObjectId. */
    method InsertInventoryOrder(v: InventoryOrder) returns (k: nat)
      requires Valid()
      modifies this`nextKey, this`inventoryOrders
      ensures Valid() && k == old(nextKey) && k !in old(inventoryOrders)
      ensures inventoryOrders == old(inventoryOrders)[k := v]
    {
      k := nextKey;
      nextKey := nextKey + 1;
      inventoryOrders := inventoryOrders[k := v];
    }

    /** `doc.save()` on a document already stored. */
    method PutInventoryOrder(k: nat, v: InventoryOrder)
      requires Valid() && k in inventoryOrders
      modifies this`inventoryOrders
      ensures Valid() && inventoryOrders == old(inventoryOrders)[k := v]
    {
      inventoryOrders := inventoryOrders[k := v];
    }

    /** The removal half of `findByIdAndRemove`. */
    method DeleteInventoryOrder(k: nat)
      requires Valid()
      modifies this`inventoryOrders
      ensures Valid() && inventoryOrders == old(inventoryOrders) - {k}
    {
      inventoryOrders := inventoryOrders - {k};
    }

    /** `new InventoryProduct(doc).save()`: store a document under a fresh ObjectId. */
    method InsertInventoryProduct(v: InventoryProduct) returns (k: nat)
      requires Valid()
      modifies this`nextKey, this`inventoryProducts
      ensures Valid() && k == old(nextKey) && k !in old(inventoryProducts)
      ensures inventoryProducts == old(inventoryProducts)[k := v]
    {
      k := nextKey;
      nextKey := nextKey + 1;
      inventoryProducts := inventoryProducts[k := v];
    }

    /** The removal half of `findByIdAndRemove`. */
    method DeleteInventoryProduct(k: nat)
      requires Valid()
      modifies this`inventoryProducts
      ensures Valid() && inventoryProducts == old(inventoryProducts) - {k}
    {
      inventoryProducts := inventoryProducts - {k};
    }
  }
}

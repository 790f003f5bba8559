/** model/store.js: adding employees and inventory orders to a Store, and removing an
    inventory order. The model object's scratch fields `tempStore`, `tempInventory`,
    `tempInventoryOrder` and `tempEmployee` are shared by all three functions and keep
    their values from one call to the next. */
module StoreModel {
  import opened Ids
  import opened Http
  import opened Schemas
  import opened Persistence
  import opened EmployeeModel
  import opened Links

  /** A store lists its incoming inventory orders by id ... */
  function Incoming(s: Store): seq<nat> { s.incoming }

  /** ... and every inventory order names its store. */
  function OrderStore(o: InventoryOrder): Option<nat> { Some(o.storeID) }

  /** The request body handed to `findByIdAndAddEmployee`; the source writes `storeID` onto it,
      a path the Employee schema does not have. */
  class EmployeeInput {
    var name: Option<string>
    var username: Option<string>
    var email: Option<string>
    var password: Option<string>
    var admin: Option<bool>
    var shipping: Option<bool>
    var receiving: Option<bool>
    var storeID: Option<nat>

    constructor (d: EmployeeDraft)
      ensures Draft() == d && storeID == None
    {
      name, username, email, password := d.name, d.username, d.email, d.password;
      admin, shipping, receiving := d.admin, d.shipping, d.receiving;
      storeID := None;
    }

    function Draft(): EmployeeDraft
      reads this
    {
      EmployeeDraft(name, username, email, password, admin, shipping, receiving)
    }
  }

  /** The request body handed to `addInventoryProduct`, from which an InventoryOrder is made. */
  class OrderInput {
    var inventories: seq<nat>
    var storeID: Option<nat>

    constructor (inventories: seq<nat>)
      ensures this.inventories == inventories && storeID == None
    {
      this.inventories := inventories;
      storeID := None;
    }

    function Draft(): InventoryOrderDraft
      reads this
    {
      InventoryOrderDraft(inventories, storeID)
    }
  }

  /** The record `new Employee(draft).save()` inserts: validation, then the `pre('save')`
      hook, then the unique index on `username`. */
  function EmployeeToInsert(d: EmployeeDraft): (r: Option<Employee>)
    ensures r.Some? <==> ValidateEmployee(d).Some?
    ensures r.Some? ==> RolesConsistent(Normalised(d)) && r == ValidateEmployee(Normalised(d))
  {
    HookKeepsValidity(d);
    NormalisedIsFixpoint(d);
    if ValidateEmployee(d).None? then None else ValidateEmployee(Normalised(d))
  }

  /** The `Store` Mongoose model object. */
  class Model {
    const db: Ledger
    var tempStore: Slot<Store>
    var tempInventory: Slot<InventoryOrder>
    var tempInventoryOrder: Slot<InventoryOrder>
    var tempEmployee: Slot<Employee>

    constructor (db: Ledger)
      ensures this.db == db
      ensures tempStore == Undefined && tempInventory == Undefined
      ensures tempInventoryOrder == Undefined && tempEmployee == Undefined
    {
      this.db := db;
      tempStore, tempInventory, tempInventoryOrder, tempEmployee := Undefined, Undefined, Undefined, Undefined;
    }

    /** `Store.findByIdAndAddEmployee(id, employee)`. Its only `.catch` sits right after
        `findById`, so only a malformed id becomes a 404; every later failure is passed on as
        it was raised. */
    method FindByIdAndAddEmployee(id: Id, employee: EmployeeInput) returns (r: Promise<Doc<Employee>>)
      requires db.Valid()
      modifies this`tempStore, this`tempEmployee, employee`storeID, db`stores, db`employees, db`nextKey
      ensures db.Valid()
      ensures id.Malformed? ==> r == Rejected(NotFoundFrom(CastError))
      ensures id.WellFormed? && id.key !in old(db.stores) ==> r == Rejected(TypeError)
      ensures !(id.WellFormed? && id.key in old(db.stores)) ==>
        && db.stores == old(db.stores) && db.employees == old(db.employees)
        && employee.storeID == old(employee.storeID)
        && tempStore == old(tempStore) && tempEmployee == old(tempEmployee)
      ensures id.WellFormed? && id.key in old(db.stores) ==>
        var s := old(db.stores)[id.key];
        var e := EmployeeToInsert(old(employee.Draft()));
        var k := old(db.nextKey);
        && employee.storeID == Some(id.key)
        && (e.None? ==>
              && r == Rejected(ValidationError)
              && db.stores == old(db.stores) && db.employees == old(db.employees)
              && tempStore == Held(Doc(id.key, s)) && tempEmployee == old(tempEmployee))
        && (e.Some? && UsernameTaken(old(db.employees), e.value.username) ==>
              && r == Rejected(MongoError)
              && db.stores == old(db.stores) && db.employees == old(db.employees)
              && tempStore == Held(Doc(id.key, s)) && tempEmployee == old(tempEmployee))
        && (e.Some? && !UsernameTaken(old(db.employees), e.value.username) ==>
              var linked := s.(employees := s.employees + [k]);
              && k !in old(db.employees)
              && db.employees == old(db.employees)[k := e.value]
              && tempStore == Held(Doc(id.key, linked)) && tempEmployee == Held(Doc(k, e.value))
              && (StoreValid(s) ==>
                    db.stores == old(db.stores)[id.key := linked] && r == Resolved(Doc(k, e.value)))
              && (!StoreValid(s) ==>
                    db.stores == old(db.stores) && r == Rejected(ValidationError)))
    {
      var found := FindById(db.stores, id);
      if found.CastFailed? {
        return Rejected(NotFoundFrom(CastError));
      }
      if found.Null? {
        // `store._id` on null, after the only catch
        return Rejected(TypeError);
      }
      var store := found.doc;
      employee.storeID := Some(store.id);
      tempStore := Held(store);
      var e := EmployeeToInsert(employee.Draft());
      if e.None? {
        return Rejected(ValidationError);
      }
      if UsernameTaken(db.employees, e.value.username) {
        return Rejected(MongoError);
      }
      var k := db.InsertEmployee(e.value);
      var linked := store.value.(employees := store.value.employees + [k]);
      tempStore := Held(Doc(store.id, linked));
      tempEmployee := Held(Doc(k, e.value));
      if !StoreValid(linked) {
        return Rejected(ValidationError);
      }
      db.PutStore(store.id, linked);
      r := Resolved(tempEmployee.doc);
    }

    /** `Store.addInventoryProduct(id, inventory)`: creates an InventoryOrder for the store and
        pushes its id onto `store.incoming`, but resolves with `this.tempInventoryOrder`, a
        field it never assigns. Every failure is reported as 404. */
    method AddInventoryProduct(id: Id, inventory: OrderInput) returns (r: Promise<Slot<InventoryOrder>>)
      requires db.Valid()
      modifies this`tempStore, this`tempInventory, inventory`storeID
      modifies db`stores, db`inventoryOrders, db`nextKey
      ensures db.Valid()
      ensures tempInventoryOrder == old(tempInventoryOrder)
      ensures !(id.WellFormed? && id.key in old(db.stores)) ==>
        && r == Rejected(NotFoundFrom(if id.Malformed? then CastError else TypeError))
        && db.stores == old(db.stores) && db.inventoryOrders == old(db.inventoryOrders)
        && inventory.storeID == old(inventory.storeID)
        && tempStore == old(tempStore) && tempInventory == old(tempInventory)
      ensures id.WellFormed? && id.key in old(db.stores) ==>
        var s := old(db.stores)[id.key];
        var k := old(db.nextKey);
        var o := InventoryOrder(old(inventory.inventories), id.key);
        var linked := s.(incoming := s.incoming + [k]);
        && inventory.storeID == Some(id.key)
        && k !in old(db.inventoryOrders)
        && db.inventoryOrders == old(db.inventoryOrders)[k := o]
        && tempStore == Held(Doc(id.key, linked)) && tempInventory == Held(Doc(k, o))
        && (StoreValid(s) ==>
              db.stores == old(db.stores)[id.key := linked] && r == Resolved(old(tempInventoryOrder)))
        && (!StoreValid(s) ==>
              db.stores == old(db.stores) && r == Rejected(NotFoundFrom(ValidationError)))
      // linking keeps every incoming order pointing back at the store that lists it
      ensures Consistent(old(db.stores), old(db.inventoryOrders), Incoming, OrderStore) ==>
        Consistent(db.stores, db.inventoryOrders, Incoming, OrderStore)
    {
      ghost var stores0, orders0 := db.stores, db.inventoryOrders;
      var found := FindById(db.stores, id);
      if found.CastFailed? {
        return Rejected(NotFoundFrom(CastError));
      }
      if found.Null? {
        // `store._id` on null, caught by the trailing catch
        return Rejected(NotFoundFrom(TypeError));
      }
      var store := found.doc;
      inventory.storeID := Some(store.id);
      tempStore := Held(store);
      var created := ValidateInventoryOrder(inventory.Draft());
      var k := db.InsertInventoryOrder(created.value);
      var linked := store.value.(incoming := store.value.incoming + [k]);
      tempStore := Held(Doc(store.id, linked));
      tempInventory := Held(Doc(k, created.value));
      if !StoreValid(linked) {
        if Consistent(stores0, orders0, Incoming, OrderStore) {
          UnlinkedChildKeeps(stores0, orders0, Incoming, OrderStore, k, created.value);
        }
        return Rejected(NotFoundFrom(ValidationError));
      }
      db.PutStore(store.id, linked);
      if Consistent(stores0, orders0, Incoming, OrderStore) {
        LinkKeeps(stores0, orders0, Incoming, OrderStore, store.id, k, created.value, linked);
      }
      r := Resolved(tempInventoryOrder);
    }

    /** `Store.removeInventoryOrder(id)`: deletes the order, then reads `store.currentOrders`, a
        path the Store schema does not have, so it never resolves; no Store changes and
        `store.incoming` keeps the deleted order's id. */
    method RemoveInventoryOrder(id: Id) returns (r: Promise<()>)
      requires db.Valid()
      modifies this`tempInventoryOrder, db`inventoryOrders
      ensures db.Valid()
      ensures r.Rejected? && r.error.status == Some(404)
      ensures !(id.WellFormed? && id.key in old(db.inventoryOrders)) ==>
        && r == Rejected(NotFoundFrom(if id.Malformed? then CastError else TypeError))
        && db.inventoryOrders == old(db.inventoryOrders)
        && tempInventoryOrder == (if id.Malformed? then old(tempInventoryOrder) else Empty)
      ensures id.WellFormed? && id.key in old(db.inventoryOrders) ==>
        && r == Rejected(NotFoundFrom(TypeError))
        && db.inventoryOrders == old(db.inventoryOrders) - {id.key}
        && tempInventoryOrder == Held(Doc(id.key, old(db.inventoryOrders)[id.key]))
      // the store that lists a removed order keeps listing it
      ensures Consistent(old(db.stores), old(db.inventoryOrders), Incoming, OrderStore) ==>
        if id.WellFormed? && id.key in old(db.inventoryOrders)
           && old(db.inventoryOrders)[id.key].storeID in old(db.stores)
           && id.key in old(db.stores)[old(db.inventoryOrders)[id.key].storeID].incoming
        then !Consistent(db.stores, db.inventoryOrders, Incoming, OrderStore)
        else Consistent(db.stores, db.inventoryOrders, Incoming, OrderStore)
    {
      ghost var stores0, orders0 := db.stores, db.inventoryOrders;
      var found := FindById(db.inventoryOrders, id);
      if found.CastFailed? {
        return Rejected(NotFoundFrom(CastError));
      }
      if found.Null? {
        tempInventoryOrder := Empty;
        // `order._id` on null
        return Rejected(NotFoundFrom(TypeError));
      }
      tempInventoryOrder := Held(found.doc);
      db.DeleteInventoryOrder(found.doc.id);
      var owner := FindById(db.stores, WellFormed(found.doc.value.storeID));
      if owner.Found? && found.doc.id in owner.doc.value.incoming {
        DanglingBreaks(stores0, orders0, Incoming, OrderStore, owner.doc.id, found.doc.id);
      } else if Consistent(stores0, orders0, Incoming, OrderStore) {
        UnlistedRemovalKeeps(stores0, orders0, Incoming, OrderStore, found.doc.id);
      }
      // `store.currentOrders.indexOf(...)`: on null, or on a Store, whose `currentOrders` is undefined
      r := Rejected(NotFoundFrom(TypeError));
    }

    /** `addInventoryProduct` as evidently intended: it resolves with the InventoryOrder it
        created (`this.tempInventory`), which is stored and listed by its store. */
    method AddIncomingOrder(id: Id, inventory: OrderInput) returns (r: Promise<Doc<InventoryOrder>>)
      requires db.Valid()
      modifies this`tempStore, this`tempInventory, inventory`storeID
      modifies db`stores, db`inventoryOrders, db`nextKey
      ensures db.Valid()
      ensures r.Resolved? <==> id.WellFormed? && id.key in old(db.stores) && StoreValid(old(db.stores)[id.key])
      ensures r.Rejected? ==> r.error.status == Some(404)
      ensures r.Resolved? ==>
        && r.value.id !in old(db.inventoryOrders)
        && r.value.id in db.inventoryOrders && db.inventoryOrders[r.value.id] == r.value.value
        && r.value.value == InventoryOrder(old(inventory.inventories), id.key)
        && id.key in db.stores && r.value.id in db.stores[id.key].incoming
      ensures Consistent(old(db.stores), old(db.inventoryOrders), Incoming, OrderStore) ==>
        Consistent(db.stores, db.inventoryOrders, Incoming, OrderStore)
    {
      var raw := AddInventoryProduct(id, inventory);
      if raw.Rejected? {
        return Rejected(raw.error);
      }
      r := Resolved(tempInventory.doc);
    }

    /** `removeInventoryOrder` as evidently intended: the order's id is spliced out of
        `store.incoming`, the path the Store schema has, and the call resolves. */
    method RemoveIncomingOrder(id: Id) returns (r: Promise<()>)
      requires db.Valid()
      modifies this`tempInventoryOrder, db`stores, db`inventoryOrders
      ensures db.Valid()
      ensures !(id.WellFormed? && id.key in old(db.inventoryOrders)) ==>
        && r == Rejected(NotFoundFrom(if id.Malformed? then CastError else TypeError))
        && db.stores == old(db.stores) && db.inventoryOrders == old(db.inventoryOrders)
      ensures id.WellFormed? && id.key in old(db.inventoryOrders) ==>
        var o := old(db.inventoryOrders)[id.key];
        && db.inventoryOrders == old(db.inventoryOrders) - {id.key}
        && tempInventoryOrder == Held(Doc(id.key, o))
        && (o.storeID !in old(db.stores) ==>
              r == Rejected(NotFoundFrom(TypeError)) && db.stores == old(db.stores))
        && (o.storeID in old(db.stores) ==>
              var st := old(db.stores)[o.storeID];
              && r == Resolved(())
              && db.stores == if StoreValid(st)
                              then old(db.stores)[o.storeID := st.(incoming := JsArray.SpliceOut(st.incoming, id.key))]
                              else old(db.stores))
      // a consistent ledger stays consistent (so no store lists the deleted order any more)
      // unless the store fails re-validation
      ensures Consistent(old(db.stores), old(db.inventoryOrders), Incoming, OrderStore) ==>
        if id.WellFormed? && id.key in old(db.inventoryOrders)
           && old(db.inventoryOrders)[id.key].storeID in old(db.stores)
           && !StoreValid(old(db.stores)[old(db.inventoryOrders)[id.key].storeID])
           && id.key in old(db.stores)[old(db.inventoryOrders)[id.key].storeID].incoming
        then !Consistent(db.stores, db.inventoryOrders, Incoming, OrderStore)
        else Consistent(db.stores, db.inventoryOrders, Incoming, OrderStore)
    {
      ghost var stores0, orders0 := db.stores, db.inventoryOrders;
      var found := FindById(db.inventoryOrders, id);
      if found.CastFailed? {
        return Rejected(NotFoundFrom(CastError));
      }
      if found.Null? {
        tempInventoryOrder := Empty;
        return Rejected(NotFoundFrom(TypeError));
      }
      tempInventoryOrder := Held(found.doc);
      db.DeleteInventoryOrder(found.doc.id);
      var owner := FindById(db.stores, WellFormed(found.doc.value.storeID));
      if !owner.Found? {
        if Consistent(stores0, orders0, Incoming, OrderStore) {
          UnlistedRemovalKeeps(stores0, orders0, Incoming, OrderStore, found.doc.id);
        }
        return Rejected(NotFoundFrom(TypeError));
      }
      var unlinked := owner.doc.value.(incoming := JsArray.SpliceOut(owner.doc.value.incoming, found.doc.id));
      if StoreValid(unlinked) {
        db.PutStore(owner.doc.id, unlinked);
        if Consistent(stores0, orders0, Incoming, OrderStore) {
          UnlinkKeeps(stores0, orders0, Incoming, OrderStore, found.doc.id, owner.doc.id, unlinked);
        }
      } else if found.doc.id in owner.doc.value.incoming {
        DanglingBreaks(stores0, orders0, Incoming, OrderStore, owner.doc.id, found.doc.id);
      } else if Consistent(stores0, orders0, Incoming, OrderStore) {
        UnlistedRemovalKeeps(stores0, orders0, Incoming, OrderStore, found.doc.id);
      }
      r := Resolved(());
    }

    /** A removed inventory order is what the next successful `addInventoryProduct` on any
        store resolves with. */
    method StaleOrderAfterRemove(orderKey: nat, storeId: Id, inventory: OrderInput)
      returns (removed: Promise<()>, added: Promise<Slot<InventoryOrder>>)
      requires db.Valid()
      requires orderKey in db.inventoryOrders
      requires storeId.WellFormed? && storeId.key in db.stores && StoreValid(db.stores[storeId.key])
      modifies this`tempStore, this`tempInventory, this`tempInventoryOrder, inventory`storeID
      modifies db`stores, db`inventoryOrders, db`nextKey
      ensures db.Valid()
      ensures removed.Rejected?
      ensures added == Resolved(Held(Doc(orderKey, old(db.inventoryOrders)[orderKey])))
      ensures orderKey !in db.inventoryOrders
    {
      removed := RemoveInventoryOrder(WellFormed(orderKey));
      added := AddInventoryProduct(storeId, inventory);
    }
  }
}

/** Walks through the order lifecycle as a client sees it, checked against
    the handlers' contracts alone. */
module Scenario {
  import opened Outcomes
  import opened Tables
  import opened Orders

  /** An admin opens an order and adds two colas at 1.5: the order starts
      PENDING at 0 and its total becomes 3. */
  method AddingRaisesTheTotal()
  {
    var db := new Database();
    var ana := User(1, "ana", "ana@example.com", "hashed", true, true);
    db.users := [ana];
    assert ana in db.users && UserUid(ana) == 1;

    var created := CreateOrder(db, 1, 10);
    assert created == Ok(Order(10, Pending, 1, 0.0));

    var cola := ItemCreate("cola", Some(2), None, None, Some(1.5));
    var added := AddItemToOrder(db, ana, 10, cola, 20);
    assert added == Ok(10);
    assert db.orders == [Order(10, Pending, 1, 3.0)];
    assert db.items == [Item(20, "cola", 2, "", "", 1.5, 10)];
  }

  /** Removing the colas again brings the total back to 0 and empties the
      item table. */
  method RemovingLowersTheTotal()
  {
    var db := new Database();
    var ana := User(1, "ana", "ana@example.com", "hashed", true, true);
    var order := Order(10, Pending, 1, 3.0);
    var cola := Item(20, "cola", 2, "", "", 1.5, 10);
    db.users, db.orders, db.items := [ana], [order], [cola];
    assert ana in db.users && UserUid(ana) == 1;
    assert order in db.orders && OrderUid(order) == 10;
    assert ItemsTotal([cola], 10) == 3.0;

    var removed := RemoveItemFromOrder(db, ana, 20);
    assert removed == Ok(10);
    assert db.orders == [Order(10, Pending, 1, 0.0)] && db.items == [];
  }

  /** Once cancelled, an order takes no items and cannot be completed; only
      an admin may list orders. */
  method CancelledOrderIsClosed()
  {
    var db := new Database();
    var ana := User(1, "ana", "ana@example.com", "hashed", true, true);
    db.users, db.orders := [ana], [Order(10, Pending, 1, 0.0)];
    assert ana in db.users && UserUid(ana) == 1;
    assert ItemsTotal([], 10) == 0.0;

    var cancelled := CancelOrder(db, ana, 10);
    assert cancelled == CancelDone(Order(10, Cancelled, 1, 0.0));

    var cola := ItemCreate("cola", Some(2), None, None, Some(1.5));
    var refused := AddItemToOrder(db, ana, 10, cola, 21);
    assert refused == Raised(500, NotFound);
    var completed := CompleteOrder(db, ana, 10);
    assert completed == Raised(500, BadRequest);

    var bob := User(2, "bob", "bob@example.com", "hashed", true, false);
    var listed := ListOrders(db, bob, None, None);
    assert listed == Raised(403, Forbidden);
    var all := ListOrders(db, ana, None, None);
    assert all.Ok? && |all.body| == 1 && all.body[0] == Order(10, Cancelled, 1, 0.0);
  }
}

/** The order handlers: create, cancel, list, add an item, remove an item,
    complete, and list one user's orders. Each handler looks rows up, checks
    existence, status and permission in a fixed order, and then updates the
    order row in place and inserts or deletes an item row, as one atomic step
    on the tables. The acting user is the one the router's authentication
    dependency resolved (`Security.GetCurrentUser`). */
module Orders {
  import opened Outcomes
  import opened Tables

  // ------------------------------------------------------------ lookups

  function FindOrder(orders: seq<Order>, uid: Uid): Option<nat>
  {
    IndexOf(orders, OrderUid, uid)
  }

  function FindItem(items: seq<Item>, uid: Uid): Option<nat>
  {
    IndexOf(items, ItemUid, uid)
  }

  /** The permission rule of every mutating handler: the actor must be an
      admin AND the owner of the order. */
  predicate MayModify(actor: User, o: Order)
  {
    actor.admin && actor.uid == o.userUid
  }

  // ------------------------------------------------------- running total

  /** What item `it` contributes to the total of order `order`. */
  function Contribution(it: Item, order: Uid): real
  {
    if it.orderUid == order then LineTotal(it) else 0.0
  }

  /** The sum of unit price times quantity over the items of `order`. */
  function ItemsTotal(items: seq<Item>, order: Uid): real
    decreases |items|
  {
    if items == [] then 0.0 else Contribution(items[0], order) + ItemsTotal(items[1..], order)
  }

  /** The invariant the handlers keep: every order's stored total is the sum of its lines. */
  ghost predicate TotalsMatch(orders: seq<Order>, items: seq<Item>)
  {
    forall i :: 0 <= i < |orders| ==> orders[i].total == ItemsTotal(items, orders[i].uid)
  }

  /** An order no item refers to has an empty sum. */
  lemma {:induction false} ItemsTotalNone(items: seq<Item>, order: Uid)
    requires forall it :: it in items ==> it.orderUid != order
    ensures ItemsTotal(items, order) == 0.0
    decreases |items|
  {
    if items != [] {
      assert forall it :: it in items[1..] ==> it in items;
      ItemsTotalNone(items[1..], order);
    }
  }

  /** Inserting an item row adds its contribution and nothing else. */
  lemma {:induction false} ItemsTotalAppend(items: seq<Item>, it: Item, order: Uid)
    ensures ItemsTotal(items + [it], order) == ItemsTotal(items, order) + Contribution(it, order)
    decreases |items|
  {
    if items == [] {
      assert ItemsTotal([it], order) == Contribution(it, order) + ItemsTotal([], order);
    } else {
      assert (items + [it])[1..] == items[1..] + [it];
      ItemsTotalAppend(items[1..], it, order);
    }
  }

  /** Deleting the item row at `i` subtracts its contribution and nothing else. */
  lemma {:induction false} ItemsTotalRemoveAt(items: seq<Item>, i: nat, order: Uid)
    requires i < |items|
    ensures ItemsTotal(items[..i] + items[i + 1..], order) == ItemsTotal(items, order) - Contribution(items[i], order)
    decreases |items|
  {
    if i == 0 {
      assert items[..0] + items[1..] == items[1..];
    } else {
      var rest := items[1..];
      assert items[..i] + items[i + 1..] == [items[0]] + (rest[..i - 1] + rest[i..]);
      ItemsTotalRemoveAt(rest, i - 1, order);
      assert rest[i - 1] == items[i];
    }
  }

  /** Deleting the items of another order leaves this order's sum unchanged. */
  lemma {:induction false} ItemsTotalFilter(items: seq<Item>, gone: Uid, order: Uid)
    requires gone != order
    ensures ItemsTotal(Filter(items, ItemOrder, gone, false), order) == ItemsTotal(items, order)
    decreases |items|
  {
    if items != [] {
      ItemsTotalFilter(items[1..], gone, order);
      if items[0].orderUid != gone {
        assert Filter(items, ItemOrder, gone, false) == [items[0]] + Filter(items[1..], ItemOrder, gone, false);
        assert ([items[0]] + Filter(items[1..], ItemOrder, gone, false))[1..] == Filter(items[1..], ItemOrder, gone, false);
      }
    }
  }

  /** The cascade delete of an order keeps every remaining total equal to the sum of its lines. */
  lemma DeleteOrderCascadeTotals(orders: seq<Order>, items: seq<Item>, uid: Uid)
    requires TotalsMatch(orders, items)
    ensures TotalsMatch(DeleteOrderCascade(orders, items, uid).0, DeleteOrderCascade(orders, items, uid).1)
  {
    var (orders', items') := DeleteOrderCascade(orders, items, uid);
    forall i | 0 <= i < |orders'| ensures orders'[i].total == ItemsTotal(items', orders'[i].uid) {
      assert orders'[i] in orders;
      var j :| 0 <= j < |orders| && orders[j] == orders'[i];
      ItemsTotalFilter(items, uid, orders'[i].uid);
    }
  }

  // ------------------------------------------------ frame-keeping lemmas

  /** Rewriting an order row without touching its uid or owner keeps the tables consistent. */
  lemma ReplaceOrderConsistent(users: seq<User>, orders: seq<Order>, items: seq<Item>, i: nat, o: Order)
    requires Consistent(users, orders, items)
    requires i < |orders| && o.uid == orders[i].uid && o.userUid == orders[i].userUid
    ensures Consistent(users, orders[i := o], items)
  {
    var orders' := orders[i := o];
    assert Uids(orders', OrderUid) == Uids(orders, OrderUid) by {
      forall u | u in Uids(orders, OrderUid) ensures u in Uids(orders', OrderUid) {
        var x :| x in orders && x.uid == u;
        var j :| 0 <= j < |orders| && orders[j] == x;
        assert orders'[j] in orders' && orders'[j].uid == u;
      }
      forall u | u in Uids(orders', OrderUid) ensures u in Uids(orders, OrderUid) {
        var x :| x in orders' && x.uid == u;
        var j :| 0 <= j < |orders'| && orders'[j] == x;
        assert orders[j] in orders && orders[j].uid == u;
      }
    }
    forall x | x in orders' ensures x.userUid in Uids(users, UserUid) {
      var j :| 0 <= j < |orders'| && orders'[j] == x;
      assert orders[j] in orders;
    }
  }

  /** Deleting one row keeps a key distinct. */
  lemma RemoveAtKeepsDistinct<R, K>(rows: seq<R>, i: nat, key: R -> K)
    requires i < |rows| && DistinctBy(rows, key)
    ensures DistinctBy(rows[..i] + rows[i + 1..], key)
  {
  }

  /** Inserting an item for order `i` and raising that order's total by the
      item's line keeps the tables consistent and every total equal to its line sum. */
  lemma AddItemKeepsInvariants(users: seq<User>, orders: seq<Order>, items: seq<Item>, i: nat, it: Item)
    requires Consistent(users, orders, items) && TotalsMatch(orders, items)
    requires i < |orders| && it.orderUid == orders[i].uid && it.uid !in Uids(items, ItemUid)
    ensures var orders' := orders[i := orders[i].(total := orders[i].total + LineTotal(it))];
      Consistent(users, orders', items + [it]) && TotalsMatch(orders', items + [it])
  {
    var o := orders[i].(total := orders[i].total + LineTotal(it));
    ReplaceOrderConsistent(users, orders, items, i, o);
    var orders', items' := orders[i := o], items + [it];
    forall j | 0 <= j < |orders'| ensures orders'[j].total == ItemsTotal(items', orders'[j].uid) {
      ItemsTotalAppend(items, it, orders'[j].uid);
      if j != i {
        assert orders[j].uid != orders[i].uid;
      }
    }
    forall a, b | 0 <= a < b < |items'| ensures items'[a].uid != items'[b].uid {
      if b == |items| {
        assert items[a] in items;
      }
    }
    assert orders'[i] in orders';
  }

  /** Deleting item `k` of order `i` and lowering that order's total by the
      item's line keeps the tables consistent and every total equal to its line sum. */
  lemma RemoveItemKeepsInvariants(users: seq<User>, orders: seq<Order>, items: seq<Item>, k: nat, i: nat)
    requires Consistent(users, orders, items) && TotalsMatch(orders, items)
    requires k < |items| && i < |orders| && items[k].orderUid == orders[i].uid
    ensures var orders' := orders[i := orders[i].(total := orders[i].total - LineTotal(items[k]))];
      Consistent(users, orders', items[..k] + items[k + 1..]) && TotalsMatch(orders', items[..k] + items[k + 1..])
  {
    var o := orders[i].(total := orders[i].total - LineTotal(items[k]));
    ReplaceOrderConsistent(users, orders, items, i, o);
    var orders', items' := orders[i := o], items[..k] + items[k + 1..];
    forall j | 0 <= j < |orders'| ensures orders'[j].total == ItemsTotal(items', orders'[j].uid) {
      ItemsTotalRemoveAt(items, k, orders'[j].uid);
      if j != i {
        assert orders[j].uid != orders[i].uid;
      }
    }
    RemoveAtKeepsDistinct(items, k, ItemUid);
    assert forall x :: x in items' ==> x in items;
  }

  // ------------------------------------------------------------ guards

  /** The lookup add_item and remove_item share: the order must exist and
      must not be CANCELLED, else NotFound. */
  function OpenOrder(orders: seq<Order>, uid: Uid): (r: Result<nat>)
    ensures r.Success? ==> r.value < |orders| && orders[r.value].uid == uid && orders[r.value].status != Cancelled
    ensures r.Failure? ==> r.error == NotFound
    ensures r.Failure? <==> FindOrder(orders, uid).None? || orders[FindOrder(orders, uid).value].status == Cancelled
  {
    match FindOrder(orders, uid)
    case None => Failure(NotFound)
    case Some(i) => if orders[i].status == Cancelled then Failure(NotFound) else Success(i)
  }

  /** add_item's checks: NotFound for a missing or cancelled order, then
      Forbidden unless the actor is an admin who owns it. */
  function AddItemGuard(orders: seq<Order>, actor: User, orderId: Uid): (r: Result<nat>)
    ensures r.Success? ==> r.value < |orders| && orders[r.value].uid == orderId
    ensures r.Success? ==> orders[r.value].status in {Pending, Completed} && MayModify(actor, orders[r.value])
    ensures r == Failure(NotFound) <==> OpenOrder(orders, orderId).Failure?
    ensures r == Failure(Forbidden) <==> OpenOrder(orders, orderId).Success? && !MayModify(actor, orders[OpenOrder(orders, orderId).value])
    ensures r.Success? || r == Failure(NotFound) || r == Failure(Forbidden)
  {
    match OpenOrder(orders, orderId)
    case Failure(e) => Failure(e)
    case Success(i) => if !MayModify(actor, orders[i]) then Failure(Forbidden) else Success(i)
  }

  /** remove_item's checks: NotFound for a missing item, then NotFound for a
      missing or cancelled parent order, then Forbidden. On success, the
      positions of the item and of its order. */
  function RemoveItemGuard(orders: seq<Order>, items: seq<Item>, actor: User, itemId: Uid): (r: Result<(nat, nat)>)
    ensures r.Success? ==> r.value.0 < |items| && items[r.value.0].uid == itemId
    ensures r.Success? ==> r.value.1 < |orders| && orders[r.value.1].uid == items[r.value.0].orderUid
    ensures r.Success? ==> orders[r.value.1].status != Cancelled && MayModify(actor, orders[r.value.1])
    ensures FindItem(items, itemId).None? ==> r == Failure(NotFound)
    ensures FindItem(items, itemId).Some? ==>
      var it := items[FindItem(items, itemId).value];
      && (OpenOrder(orders, it.orderUid).Failure? ==> r == Failure(NotFound))
      && (OpenOrder(orders, it.orderUid).Success? ==>
            (r == Failure(Forbidden) <==> !MayModify(actor, orders[OpenOrder(orders, it.orderUid).value])))
    ensures r.Success? <==>
      && FindItem(items, itemId).Some?
      && var it := items[FindItem(items, itemId).value];
      && OpenOrder(orders, it.orderUid).Success?
      && MayModify(actor, orders[OpenOrder(orders, it.orderUid).value])
    ensures r.Success? || r == Failure(NotFound) || r == Failure(Forbidden)
  {
    match FindItem(items, itemId)
    case None => Failure(NotFound)
    case Some(k) =>
      match OpenOrder(orders, items[k].orderUid)
      case Failure(e) => Failure(e)
      case Success(i) => if !MayModify(actor, orders[i]) then Failure(Forbidden) else Success((k, i))
  }

  /** complete_order's checks: NotFound, then Forbidden, then BadRequest for a
      CANCELLED order. A COMPLETED order passes. */
  function CompleteGuard(orders: seq<Order>, actor: User, orderId: Uid): (r: Result<nat>)
    ensures r.Success? ==> r.value < |orders| && orders[r.value].uid == orderId
    ensures r.Success? ==> MayModify(actor, orders[r.value]) && orders[r.value].status != Cancelled
    ensures r == Failure(NotFound) <==> FindOrder(orders, orderId).None?
    ensures r == Failure(Forbidden) <==> FindOrder(orders, orderId).Some? && !MayModify(actor, orders[FindOrder(orders, orderId).value])
    ensures r == Failure(BadRequest) <==>
      FindOrder(orders, orderId).Some? && MayModify(actor, orders[FindOrder(orders, orderId).value])
      && orders[FindOrder(orders, orderId).value].status == Cancelled
    ensures r.Success? <==>
      && FindOrder(orders, orderId).Some?
      && MayModify(actor, orders[FindOrder(orders, orderId).value])
      && orders[FindOrder(orders, orderId).value].status != Cancelled
  {
    match FindOrder(orders, orderId)
    case None => Failure(NotFound)
    case Some(i) =>
      if !MayModify(actor, orders[i]) then Failure(Forbidden)
      else if orders[i].status == Cancelled then Failure(BadRequest)
      else Success(i)
  }

  /** cancel_order's checks, in the order the source evaluates them: a
      non-admin is refused before the order is looked at; for an admin a
      missing order breaks the ownership test (reading `user_uid` of None),
      so the "not found" test after it never fires; then Forbidden for
      another owner's order. Any status may be cancelled. */
  function CancelGuard(orders: seq<Order>, actor: User, orderId: Uid): (r: Result<nat>)
    ensures r.Success? ==> r.value < |orders| && orders[r.value].uid == orderId && MayModify(actor, orders[r.value])
    ensures !actor.admin ==> r == Failure(Forbidden)
    ensures actor.admin && FindOrder(orders, orderId).None? ==> r == Failure(Internal)
    ensures r.Success? <==> FindOrder(orders, orderId).Some? && MayModify(actor, orders[FindOrder(orders, orderId).value])
    ensures actor.admin && FindOrder(orders, orderId).Some? && orders[FindOrder(orders, orderId).value].userUid != actor.uid ==>
      r == Failure(Forbidden)
    ensures r != Failure(NotFound)
  {
    if !actor.admin then Failure(Forbidden)
    else match FindOrder(orders, orderId)
      case None => Failure(Internal)
      case Some(i) => if orders[i].userUid != actor.uid then Failure(Forbidden) else Success(i)
  }

  /** Whatever the request, the four mutating handlers only proceed for an
      admin who owns the order acted on: the order with that uid, or for
      remove_item the order the item belongs to. */
  lemma OnlyAdminOwnerMutates(orders: seq<Order>, items: seq<Item>, actor: User, uid: Uid)
    ensures AddItemGuard(orders, actor, uid).Success? ==>
      FindOrder(orders, uid).Some? && actor.admin && orders[FindOrder(orders, uid).value].userUid == actor.uid
    ensures CompleteGuard(orders, actor, uid).Success? ==>
      FindOrder(orders, uid).Some? && actor.admin && orders[FindOrder(orders, uid).value].userUid == actor.uid
    ensures CancelGuard(orders, actor, uid).Success? ==>
      FindOrder(orders, uid).Some? && actor.admin && orders[FindOrder(orders, uid).value].userUid == actor.uid
    ensures RemoveItemGuard(orders, items, actor, uid).Success? ==>
      && FindItem(items, uid).Some?
      && var owner := items[FindItem(items, uid).value].orderUid;
      && FindOrder(orders, owner).Some? && actor.admin && orders[FindOrder(orders, owner).value].userUid == actor.uid
  {
  }

  /** Existence and status are checked before permission in add_item, and
      permission before existence in cancel_order: a non-admin is told
      NotFound for a cancelled or missing order by the one and Forbidden by
      the other. */
  lemma CheckOrderIsObservable(orders: seq<Order>, actor: User, uid: Uid)
    requires !actor.admin
    requires FindOrder(orders, uid).None? || orders[FindOrder(orders, uid).value].status == Cancelled
    ensures AddItemGuard(orders, actor, uid) == Failure(NotFound)
    ensures CancelGuard(orders, actor, uid) == Failure(Forbidden)
    ensures FindOrder(orders, uid).Some? ==> CompleteGuard(orders, actor, uid) == Failure(Forbidden)
  {
  }

  // ---------------------------------------------------------- handlers

  /** POST /orders/: inserts a PENDING order with total 0 owned by
      `userUid`. The owner is not checked by the handler; an unknown owner
      violates the foreign key and the commit fails (500). */
  method CreateOrder(db: Database, userUid: Uid, newUid: Uid) returns (resp: Response<Order>)
    requires db.Valid() && TotalsMatch(db.orders, db.items)
    requires newUid !in Uids(db.orders, OrderUid)
    modifies db
    ensures db.Valid() && TotalsMatch(db.orders, db.items)
    ensures db.users == old(db.users) && db.items == old(db.items)
    ensures userUid in Uids(db.users, UserUid) ==>
      resp == Ok(NewOrder(newUid, userUid)) && db.orders == old(db.orders) + [NewOrder(newUid, userUid)]
    ensures userUid !in Uids(db.users, UserUid) ==>
      resp == Raised(500, Internal) && db.orders == old(db.orders)
  {
    var r: Result<Order>;
    if userUid in Uids(db.users, UserUid) {
      var o := NewOrder(newUid, userUid);
      assert forall it :: it in db.items ==> it.orderUid != newUid;
      ItemsTotalNone(db.items, newUid);
      db.orders := db.orders + [o];
      assert Uids(old(db.orders), OrderUid) <= Uids(db.orders, OrderUid) by {
        forall u | u in Uids(old(db.orders), OrderUid) ensures u in Uids(db.orders, OrderUid) {
          var x :| x in old(db.orders) && x.uid == u;
          assert x in db.orders;
        }
      }
      r := Success(o);
    } else {
      r := Failure(Internal);
    }
    resp := CaughtAs500(r);
  }

  /** The body cancel_order answers with: the cancelled order, or the error
      its message names. */
  datatype CancelReply = CancelDone(order: Order) | CancelError(cause: Error)

  /** GET /orders/cancel/{order_id}: sets the order CANCELLED whatever its
      status. Every failure is answered with a 200 message body instead of an
      error status. */
  method CancelOrder(db: Database, actor: User, orderId: Uid) returns (reply: CancelReply)
    requires db.Valid() && TotalsMatch(db.orders, db.items)
    modifies db
    ensures db.Valid() && TotalsMatch(db.orders, db.items)
    ensures db.users == old(db.users) && db.items == old(db.items)
    ensures CancelGuard(old(db.orders), actor, orderId).Failure? ==>
      reply == CancelError(CancelGuard(old(db.orders), actor, orderId).error) && db.orders == old(db.orders)
    ensures CancelGuard(old(db.orders), actor, orderId).Success? ==>
      var i := CancelGuard(old(db.orders), actor, orderId).value;
      && db.orders == old(db.orders)[i := old(db.orders)[i].(status := Cancelled)]
      && reply == CancelDone(db.orders[i])
  {
    match CancelGuard(db.orders, actor, orderId)
    case Failure(e) =>
      reply := CancelError(e);
    case Success(i) =>
      var o := db.orders[i].(status := Cancelled);
      ReplaceOrderConsistent(db.users, db.orders, db.items, i, o);
      db.orders := db.orders[i := o];
      reply := CancelDone(o);
  }

  const DEFAULT_OFFSET: nat := 0
  const DEFAULT_LIMIT: nat := 20

  /** GET /orders/?offset&limit: admins only (refused with 403 outside the
      handler's try block); the orders at scan positions [offset, offset+limit),
      where an omitted offset is 0 and an omitted limit is 20. */
  method ListOrders(db: Database, actor: User, offset: Option<nat>, limit: Option<nat>)
    returns (resp: Response<seq<Order>>)
    ensures !actor.admin ==> resp == Raised(403, Forbidden)
    ensures actor.admin ==> resp.Ok?
    ensures resp.Ok? ==>
      var from, count := Default(offset, DEFAULT_OFFSET), Default(limit, DEFAULT_LIMIT);
      && |resp.body| == (if from >= |db.orders| then 0
                         else if count <= |db.orders| - from then count
                         else |db.orders| - from)
      && forall k :: 0 <= k < |resp.body| ==> resp.body[k] == db.orders[from + k]
  {
    if !actor.admin {
      resp := Uncaught(Failure(Forbidden));
    } else {
      var from, count := Default(offset, DEFAULT_OFFSET), Default(limit, DEFAULT_LIMIT);
      resp := Ok(Page(db.orders, from, count));
    }
  }

  /** POST /orders/add-item/{order_id}: attaches a new item to a PENDING or
      COMPLETED order and raises its total by unit price times quantity.
      Failures inside the try block become 500s. */
  method AddItemToOrder(db: Database, actor: User, orderId: Uid, form: ItemCreate, newUid: Uid)
    returns (resp: Response<Uid>)
    requires db.Valid() && TotalsMatch(db.orders, db.items)
    requires newUid !in Uids(db.items, ItemUid)
    modifies db
    ensures db.Valid() && TotalsMatch(db.orders, db.items)
    ensures db.users == old(db.users)
    ensures AddItemGuard(old(db.orders), actor, orderId).Failure? ==>
      && resp == Raised(500, AddItemGuard(old(db.orders), actor, orderId).error)
      && db.orders == old(db.orders) && db.items == old(db.items)
    ensures AddItemGuard(old(db.orders), actor, orderId).Success? ==>
      var i := AddItemGuard(old(db.orders), actor, orderId).value;
      var it := NewItem(newUid, form, orderId);
      && resp == Ok(orderId)
      && db.items == old(db.items) + [it]
      && db.orders == old(db.orders)[i := old(db.orders)[i].(total := old(db.orders)[i].total + LineTotal(it))]
  {
    var orders, items := db.orders, db.items;
    var guard := AddItemGuard(orders, actor, orderId);
    if guard.Failure? {
      resp := CaughtAs500(Failure(guard.error));
    } else {
      var i := guard.value;
      var it := NewItem(newUid, form, orderId);
      var o := orders[i].(total := orders[i].total + LineTotal(it));
      AddItemKeepsInvariants(db.users, orders, items, i, it);
      db.orders, db.items := orders[i := o], items + [it];
      resp := CaughtAs500(Success(orderId));
    }
  }

  /** DELETE /orders/remove-item/{item_id}: deletes the item and lowers its
      order's total by the item's unit price times quantity, with no lower
      bound. Failures inside the try block become 500s. */
  method RemoveItemFromOrder(db: Database, actor: User, itemId: Uid) returns (resp: Response<Uid>)
    requires db.Valid() && TotalsMatch(db.orders, db.items)
    modifies db
    ensures db.Valid() && TotalsMatch(db.orders, db.items)
    ensures db.users == old(db.users)
    ensures RemoveItemGuard(old(db.orders), old(db.items), actor, itemId).Failure? ==>
      && resp == Raised(500, RemoveItemGuard(old(db.orders), old(db.items), actor, itemId).error)
      && db.orders == old(db.orders) && db.items == old(db.items)
    ensures RemoveItemGuard(old(db.orders), old(db.items), actor, itemId).Success? ==>
      var k := RemoveItemGuard(old(db.orders), old(db.items), actor, itemId).value.0;
      var i := RemoveItemGuard(old(db.orders), old(db.items), actor, itemId).value.1;
      var it := old(db.items)[k];
      && resp == Ok(old(db.orders)[i].uid)
      && db.items == old(db.items)[..k] + old(db.items)[k + 1..]
      && db.orders == old(db.orders)[i := old(db.orders)[i].(total := old(db.orders)[i].total - LineTotal(it))]
  {
    var orders, items := db.orders, db.items;
    var guard := RemoveItemGuard(orders, items, actor, itemId);
    assert orders == old(db.orders) && items == old(db.items);
    if guard.Failure? {
      resp := CaughtAs500(Failure(guard.error));
    } else {
      var k, i := guard.value.0, guard.value.1;
      var o := orders[i].(total := orders[i].total - LineTotal(items[k]));
      RemoveItemKeepsInvariants(db.users, orders, items, k, i);
      db.orders, db.items := orders[i := o], items[..k] + items[k + 1..];
      assert o == old(db.orders)[i].(total := old(db.orders)[i].total - LineTotal(old(db.items)[k]));
      resp := CaughtAs500(Success(o.uid));
    }
  }

  /** POST /orders/complete/{order_id}: sets the order COMPLETED (an already
      COMPLETED order stays so). Failures inside the try block become 500s. */
  method CompleteOrder(db: Database, actor: User, orderId: Uid) returns (resp: Response<Order>)
    requires db.Valid() && TotalsMatch(db.orders, db.items)
    modifies db
    ensures db.Valid() && TotalsMatch(db.orders, db.items)
    ensures db.users == old(db.users) && db.items == old(db.items)
    ensures CompleteGuard(old(db.orders), actor, orderId).Failure? ==>
      resp == Raised(500, CompleteGuard(old(db.orders), actor, orderId).error) && db.orders == old(db.orders)
    ensures CompleteGuard(old(db.orders), actor, orderId).Success? ==>
      var i := CompleteGuard(old(db.orders), actor, orderId).value;
      && db.orders == old(db.orders)[i := old(db.orders)[i].(status := Completed)]
      && resp == Ok(db.orders[i])
  {
    match CompleteGuard(db.orders, actor, orderId)
    case Failure(e) =>
      resp := CaughtAs500(Failure(e));
    case Success(i) =>
      var o := db.orders[i].(status := Completed);
      ReplaceOrderConsistent(db.users, db.orders, db.items, i, o);
      db.orders := db.orders[i := o];
      resp := CaughtAs500(Success(o));
  }

  /** GET /orders/user-orders: exactly the caller's orders, in scan order; an
      empty result is raised as NotFound inside the try block, so it leaves as a 500. */
  method GetOrdersByUser(db: Database, actor: User) returns (resp: Response<seq<Order>>)
    requires db.Valid()
    ensures resp.Ok? ==> forall o :: o in resp.body <==> o in db.orders && o.userUid == actor.uid
    ensures resp.Ok? ==> resp.body == Filter(db.orders, OrderOwner, actor.uid, true)
    ensures resp.Ok? ==> DistinctBy(resp.body, OrderUid)
    ensures resp.Ok? <==> exists o :: o in db.orders && o.userUid == actor.uid
    ensures resp.Raised? ==> resp == Raised(500, NotFound)
  {
    var mine := Filter(db.orders, OrderOwner, actor.uid, true);
    FilterKeepsDistinct(db.orders, OrderOwner, actor.uid, true, OrderUid);
    if mine == [] {
      resp := CaughtAs500(Failure(NotFound));
    } else {
      assert mine[0] in mine;
      resp := CaughtAs500(Success(mine));
    }
  }
}

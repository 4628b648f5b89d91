/** The three tables of the order database (Users, Orders, Items), their
    defaults, the order-status enumeration, the declared password pattern, and
    the key, uniqueness, foreign-key and cascade constraints.

    A table is the sequence of its rows in the order a scan returns them: a
    query's `.first()` and its offset/limit window depend on that order. */
module Tables {
  import opened Outcomes

  /** A UUID; only equality between identifiers matters. */
  type Uid = nat

  // ---------------------------------------------------------------- status

  datatype Status = Pending | Completed | Cancelled

  /** The string value of each enumeration member (the enum is a `str` enum). */
  function StatusName(s: Status): string
  {
    match s
    case Pending => "PENDING"
    case Completed => "COMPLETED"
    case Cancelled => "CANCELLED"
  }

  /** Reading a stored status string back: exactly three strings are statuses. */
  function ParseStatus(name: string): (r: Option<Status>)
    ensures r.Some? <==> name == "PENDING" || name == "COMPLETED" || name == "CANCELLED"
    ensures r.Some? ==> StatusName(r.value) == name
  {
    if name == "PENDING" then Some(Pending)
    else if name == "COMPLETED" then Some(Completed)
    else if name == "CANCELLED" then Some(Cancelled)
    else None
  }

  /** The three names are distinct, so a status survives being stored as its name. */
  lemma StatusNameRoundTrip(s: Status, t: Status)
    ensures ParseStatus(StatusName(s)) == Some(s)
    ensures StatusName(s) == StatusName(t) ==> s == t
  {
  }

  // --------------------------------------------------------------- records

  datatype User = User(uid: Uid, name: string, email: string, password: string, active: bool, admin: bool)

  datatype Order = Order(uid: Uid, status: Status, userUid: Uid, total: real)

  datatype Item = Item(uid: Uid, name: string, quantity: int, flavor: string, size: string,
                       unitPrice: real, orderUid: Uid)

  /** The signup form: name, email and the plaintext password. */
  datatype UserCreate = UserCreate(name: string, email: string, password: string)

  /** The item form; a field left out of the request is None and takes its default. */
  datatype ItemCreate = ItemCreate(name: string, quantity: Option<int>, flavor: Option<string>,
                                   size: Option<string>, unitPrice: Option<real>)

  function UserUid(u: User): Uid { u.uid }
  function UserEmail(u: User): string { u.email }
  function OrderUid(o: Order): Uid { o.uid }
  function OrderOwner(o: Order): Uid { o.userUid }
  function ItemUid(it: Item): Uid { it.uid }
  function ItemOrder(it: Item): Uid { it.orderUid }

  /** A user row built from the signup form, with the hash in place of the password. */
  function NewUser(uid: Uid, form: UserCreate, hashed: string): (u: User)
    ensures u.active && !u.admin
    ensures u.uid == uid && u.name == form.name && u.email == form.email && u.password == hashed
  {
    User(uid, form.name, form.email, hashed, true, false)
  }

  /** An order row built from the create request: it starts PENDING with total 0. */
  function NewOrder(uid: Uid, userUid: Uid): (o: Order)
    ensures o.status == Pending && o.total == 0.0
    ensures o.uid == uid && o.userUid == userUid
  {
    Order(uid, Pending, userUid, 0.0)
  }

  function Default<T>(v: Option<T>, d: T): T
  {
    match v
    case Some(x) => x
    case None => d
  }

  /** An item row built from the form and attached to `orderUid`; omitted
      fields take quantity 0, flavor "", size "" and unit price 0. */
  function NewItem(uid: Uid, form: ItemCreate, orderUid: Uid): (it: Item)
    ensures it.uid == uid && it.orderUid == orderUid && it.name == form.name
    ensures it.quantity == (if form.quantity.Some? then form.quantity.value else 0)
    ensures it.flavor == (if form.flavor.Some? then form.flavor.value else "")
    ensures it.size == (if form.size.Some? then form.size.value else "")
    ensures it.unitPrice == (if form.unitPrice.Some? then form.unitPrice.value else 0.0)
  {
    Item(uid, form.name, Default(form.quantity, 0), Default(form.flavor, ""),
         Default(form.size, ""), Default(form.unitPrice, 0.0), orderUid)
  }

  /** What one item line adds to its order's total. */
  function LineTotal(it: Item): real
  {
    it.unitPrice * it.quantity as real
  }

  // ------------------------------------------------------ password pattern

  predicate IsAsciiLetter(c: char) { 'A' <= c <= 'Z' || 'a' <= c <= 'z' }
  predicate IsAsciiDigit(c: char) { '0' <= c <= '9' }

  /** The character classes the password pattern uses: [A-Za-z], \d and [A-Za-z\d]. */
  datatype CharClass = Letters | Digits | LettersOrDigits

  predicate InClass(c: char, cls: CharClass)
  {
    match cls
    case Letters => IsAsciiLetter(c)
    case Digits => IsAsciiDigit(c)
    case LettersOrDigits => IsAsciiLetter(c) || IsAsciiDigit(c)
  }

  /** The lookahead `(?=.*[cls])`: a character of the class occurs before the
      first newline (`.` does not match a newline). */
  function LookaheadFinds(s: string, cls: CharClass): bool
    decreases |s|
  {
    if s == [] then false
    else if InClass(s[0], cls) then true
    else if s[0] == '\n' then false
    else LookaheadFinds(s[1..], cls)
  }

  /** `[cls]{min,}$`: the rest of the string is at least `min` characters of the class. */
  function RepeatToEnd(s: string, cls: CharClass, min: nat): bool
    decreases |s|
  {
    if s == [] then min == 0
    else InClass(s[0], cls) && RepeatToEnd(s[1..], cls, if min == 0 then 0 else min - 1)
  }

  /** The declared password pattern `^(?=.*[A-Za-z])(?=.*\d)[A-Za-z\d]{8,}$`,
      evaluated as the regular expression reads. */
  function PasswordPatternMatches(s: string): bool
  {
    LookaheadFinds(s, Letters) && LookaheadFinds(s, Digits) && RepeatToEnd(s, LettersOrDigits, 8)
  }

  /** The passwords the pattern is meant to admit, stated directly. */
  ghost predicate AcceptablePassword(s: string)
  {
    && |s| >= 8
    && (forall i :: 0 <= i < |s| ==> InClass(s[i], LettersOrDigits))
    && (exists i :: 0 <= i < |s| && IsAsciiLetter(s[i]))
    && (exists i :: 0 <= i < |s| && IsAsciiDigit(s[i]))
  }

  lemma {:induction false} RepeatToEndExact(s: string, cls: CharClass, min: nat)
    ensures RepeatToEnd(s, cls, min) <==> |s| >= min && forall i :: 0 <= i < |s| ==> InClass(s[i], cls)
    decreases |s|
  {
    if s != [] {
      RepeatToEndExact(s[1..], cls, if min == 0 then 0 else min - 1);
      if forall i :: 0 <= i < |s| ==> InClass(s[i], cls) {
        assert forall i :: 0 <= i < |s[1..]| ==> InClass(s[1..][i], cls) by {
          forall i | 0 <= i < |s[1..]| ensures InClass(s[1..][i], cls) {
            assert s[1..][i] == s[i + 1];
          }
        }
      }
      if InClass(s[0], cls) && forall i :: 0 <= i < |s[1..]| ==> InClass(s[1..][i], cls) {
        forall i | 0 <= i < |s| ensures InClass(s[i], cls) {
          if i > 0 { assert s[i] == s[1..][i - 1]; }
        }
      }
    }
  }

  lemma {:induction false} LookaheadExact(s: string, cls: CharClass)
    requires forall i :: 0 <= i < |s| ==> s[i] != '\n'
    ensures LookaheadFinds(s, cls) <==> exists i :: 0 <= i < |s| && InClass(s[i], cls)
    decreases |s|
  {
    if s != [] && !InClass(s[0], cls) {
      assert forall i :: 0 <= i < |s[1..]| ==> s[1..][i] == s[i + 1];
      LookaheadExact(s[1..], cls);
      if exists i :: 0 <= i < |s| && InClass(s[i], cls) {
        var i :| 0 <= i < |s| && InClass(s[i], cls);
        assert InClass(s[1..][i - 1], cls);
      }
    }
  }

  /** The pattern accepts exactly the strings of at least eight ASCII letters
      and digits that contain at least one letter and at least one digit. */
  lemma PasswordPatternExact(s: string)
    ensures PasswordPatternMatches(s) <==> AcceptablePassword(s)
  {
    RepeatToEndExact(s, LettersOrDigits, 8);
    if RepeatToEnd(s, LettersOrDigits, 8) || AcceptablePassword(s) {
      assert forall i :: 0 <= i < |s| ==> s[i] != '\n' by {
        forall i | 0 <= i < |s| ensures s[i] != '\n' {
          assert InClass(s[i], LettersOrDigits);
        }
      }
      LookaheadExact(s, Letters);
      LookaheadExact(s, Digits);
    }
  }

  // ---------------------------------------------------------- row queries

  /** `select(...).where(key == k).first()`: the position of the first row
      whose key is `k`. */
  function IndexOf<R, K(==)>(rows: seq<R>, key: R -> K, k: K): (r: Option<nat>)
    ensures r.Some? ==> r.value < |rows| && key(rows[r.value]) == k
    ensures r.Some? ==> forall j :: 0 <= j < r.value ==> key(rows[j]) != k
    ensures r.None? <==> forall j :: 0 <= j < |rows| ==> key(rows[j]) != k
    decreases |rows|
  {
    if rows == [] then None
    else if key(rows[0]) == k then Some(0)
    else match IndexOf(rows[1..], key, k)
      case None => None
      case Some(j) => Some(j + 1)
  }

  /** `select(...).where(key == k).all()` when `keep`, and the rows a delete
      of `key == k` leaves behind when not: the rows kept, in scan order. */
  function Filter<R(!new), K(==)>(rows: seq<R>, key: R -> K, k: K, keep: bool): (r: seq<R>)
    ensures forall x :: x in r <==> x in rows && (key(x) == k) == keep
    ensures |r| <= |rows|
    decreases |rows|
  {
    if rows == [] then []
    else if (key(rows[0]) == k) == keep then [rows[0]] + Filter(rows[1..], key, k, keep)
    else Filter(rows[1..], key, k, keep)
  }

  /** `.offset(offset).limit(limit)`: the rows at scan positions [offset, offset + limit). */
  function Page<R>(rows: seq<R>, offset: nat, limit: nat): (r: seq<R>)
    ensures |r| == if offset >= |rows| then 0 else if limit <= |rows| - offset then limit else |rows| - offset
    ensures forall k :: 0 <= k < |r| ==> r[k] == rows[offset + k]
  {
    if offset >= |rows| then []
    else if limit <= |rows| - offset then rows[offset..offset + limit]
    else rows[offset..]
  }

  /** No two rows share a key: a primary key, or a column declared unique. */
  predicate DistinctBy<R, K(==)>(rows: seq<R>, key: R -> K)
  {
    forall i, j :: 0 <= i < j < |rows| ==> key(rows[i]) != key(rows[j])
  }

  /** With distinct keys, the row `IndexOf` finds is the only row with that key. */
  lemma DistinctIndexOf<R, K>(rows: seq<R>, key: R -> K, k: K, i: nat)
    requires DistinctBy(rows, key)
    requires i < |rows| && key(rows[i]) == k
    ensures IndexOf(rows, key, k) == Some(i)
  {
  }

  lemma {:induction false} FilterKeepsDistinct<R(!new), K, K2>(rows: seq<R>, key: R -> K, k: K, keep: bool, key2: R -> K2)
    requires DistinctBy(rows, key2)
    ensures DistinctBy(Filter(rows, key, k, keep), key2)
    decreases |rows|
  {
    if rows != [] {
      assert DistinctBy(rows[1..], key2) by {
        forall i, j | 0 <= i < j < |rows[1..]| ensures key2(rows[1..][i]) != key2(rows[1..][j]) {
          assert rows[1..][i] == rows[i + 1] && rows[1..][j] == rows[j + 1];
        }
      }
      FilterKeepsDistinct(rows[1..], key, k, keep, key2);
      var rest := Filter(rows[1..], key, k, keep);
      if (key(rows[0]) == k) == keep {
        var r := [rows[0]] + rest;
        forall i, j | 0 <= i < j < |r| ensures key2(r[i]) != key2(r[j]) {
          if i == 0 {
            assert r[j] == rest[j - 1] && r[j] in rows[1..];
            var m :| 0 <= m < |rows[1..]| && rows[1..][m] == r[j];
            assert rows[m + 1] == r[j];
          } else {
            assert r[i] == rest[i - 1] && r[j] == rest[j - 1];
          }
        }
      }
    }
  }

  function Uids<R(==)>(rows: seq<R>, key: R -> Uid): set<Uid>
  {
    set x | x in rows :: key(x)
  }

  // ---------------------------------------------------------- constraints

  /** The declared constraints: every table's uid is a primary key, the user
      email is unique, each order references an existing user and each item an
      existing order. */
  ghost predicate Consistent(users: seq<User>, orders: seq<Order>, items: seq<Item>)
  {
    && DistinctBy(users, UserUid)
    && DistinctBy(users, UserEmail)
    && DistinctBy(orders, OrderUid)
    && DistinctBy(items, ItemUid)
    && (forall o :: o in orders ==> o.userUid in Uids(users, UserUid))
    && (forall it :: it in items ==> it.orderUid in Uids(orders, OrderUid))
  }

  /** Deleting an order deletes its items with it (the cascade on the
      order-to-items relationship). Returns the remaining orders and items. */
  function DeleteOrderCascade(orders: seq<Order>, items: seq<Item>, uid: Uid): (r: (seq<Order>, seq<Item>))
    ensures forall o :: o in r.0 <==> o in orders && o.uid != uid
    ensures forall it :: it in r.1 <==> it in items && it.orderUid != uid
  {
    (Filter(orders, OrderUid, uid, false), Filter(items, ItemOrder, uid, false))
  }

  /** The cascade keeps the tables consistent: no item is left pointing at the deleted order. */
  lemma DeleteOrderCascadeConsistent(users: seq<User>, orders: seq<Order>, items: seq<Item>, uid: Uid)
    requires Consistent(users, orders, items)
    ensures Consistent(users, DeleteOrderCascade(orders, items, uid).0, DeleteOrderCascade(orders, items, uid).1)
  {
    var (orders', items') := DeleteOrderCascade(orders, items, uid);
    FilterKeepsDistinct(orders, OrderUid, uid, false, OrderUid);
    FilterKeepsDistinct(items, ItemOrder, uid, false, ItemUid);
    forall it | it in items' ensures it.orderUid in Uids(orders', OrderUid) {
      var o :| o in orders && o.uid == it.orderUid;
      assert o in orders';
    }
  }

  // ------------------------------------------------------------- database

  /** The database handle: the three tables, updated in place by the handlers. */
  class Database {
    var users: seq<User>
    var orders: seq<Order>
    var items: seq<Item>

    ghost predicate Valid()
      reads this
    {
      Consistent(users, orders, items)
    }

    constructor ()
      ensures Valid()
      ensures users == [] && orders == [] && items == []
    {
      users, orders, items := [], [], [];
    }
  }
}

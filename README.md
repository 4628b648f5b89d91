# Pizza orders API: order state machine and authentication decisions

This project models the core of an order-management backend. Users sign up,
sign in for an access token and a refresh token, and admins manage orders and
their line items.

- `tables.dfy` (module `Tables`) holds the three tables: Users, Orders and
  Items. It also holds the order status enumeration, the field defaults, the
  declared password pattern, and the key, uniqueness, foreign-key and cascade
  constraints. A table is the sequence of its rows in scan order. A query's
  `.first()` and its offset/limit window depend on that order. Because of
  this, "uid is a primary key" and "email is unique" are invariants
  (`Tables.Consistent`, kept by `Database.Valid()`) rather than properties of
  a map.
- `orders.dfy` (module `Orders`) holds the order handlers. Each handler is a
  module-level method that takes the `Database` handle as a parameter and
  updates its tables in place. Its checks,
  in the order the code makes them, are a pure guard function (`AddItemGuard`,
  `RemoveItemGuard`, `CompleteGuard`, `CancelGuard`). Every handler keeps the
  invariant `TotalsMatch`: each order's stored total equals the sum of unit
  price × quantity over its remaining items.
- `security.dfy` (module `Security`) holds token claims and expiry, and user
  lookup by email. It also holds password authentication, and resolution of a
  bearer token to a user.
- `auth.dfy` (module `Auth`) holds signup, which inserts into the users table,
  and signin and refresh, which build token pairs.
- `outcomes.dfy` (module `Outcomes`) holds the error kinds and route responses.
  A failure raised inside a handler's `try` block leaves the route as a 500
  (`CaughtAs500`). A failure raised outside one keeps its own status
  (`Uncaught`).
- `scenario.dfy` (module `Scenario`) holds client methods that drive the order
  handlers through the usual lifecycle, using only the handlers' contracts.
  An admin opens an order and adds two colas at 1.5, so the total goes from 0
  to 3. Removing them brings it back to 0. Once the order is cancelled, it
  takes no items and cannot be completed. Only an admin may list orders.

The cryptography is a set of parameters, bundled in `Security.Env`: signing
and signature checking, password hashing and verification, and the email
validation, which returns the normalised address. The clock is a `now` parameter, in seconds. The
ACCESS_TOKEN_EXPIRE_MINUTES setting is a parameter too. Money is `real`, so
arithmetic is exact.

Where the code departs from the documented intent, the model follows the code:
- Permission: a mutating order handler needs the actor to be an admin AND the
  order's owner.
- Unknown email: signin and token resolution answer 404, the error raised
  inside `get_user`, not 401.
- Missing order on cancel: for an admin, `cancel_order` reads `user_uid` of a
  missing row, which raises an attribute error. The handler reports it in its
  200 message body, so its own "not found" branch is never reached.
- Order status: `add_item` accepts COMPLETED orders, and `cancel_order` cancels
  COMPLETED ones.
- Wrong status: a cancelled order is reported as NotFound by add/remove, and as
  BadRequest by complete.

## Model

| member | source | states |
|---|---|---|
| `Tables.ParseStatus` | database/conn.py:50-53 | a stored status string is one of exactly PENDING, COMPLETED, CANCELLED, and parses back to the member with that name |
| `Tables.StatusNameRoundTrip` | database/conn.py:50-53 | each status survives being stored as its string value; distinct statuses have distinct names |
| `Tables.NewUser` | database/conn.py:23-31 | a user row built at signup is active and not an admin (field defaults), and its password field is the given hash |
| `Tables.NewOrder` | database/conn.py:57-61 | a new order is PENDING with total 0, owned by the given user |
| `Tables.NewItem` | database/conn.py:37-44 | an omitted quantity, flavor, size or unit price takes 0, "", "" or 0; the item references the given order |
| `Tables.PasswordPatternExact` | database/conn.py:27-29 | the declared pattern, evaluated as the regular expression reads, accepts exactly the strings of at least 8 ASCII letters and digits with at least one letter and one digit |
| `Tables.IndexOf` | routes/orders.py:99-102 | `.where(key == k).first()` finds the first row with that key, and finds none exactly when no row has it |
| `Tables.Filter` | routes/orders.py:221-222 | a filtered query holds exactly the rows whose key matches (or, for a delete, does not match) |
| `Tables.Page` | routes/orders.py:78-79 | `.offset(o).limit(l)` returns the rows at positions [o, o+l), cut short at the end of the table |
| `Tables.DistinctIndexOf` | database/conn.py:24-26 | when a column is unique, the row `.first()` finds is the only row holding that value |
| `Tables.FilterKeepsDistinct` | database/conn.py:58-64 | deleting rows never breaks a primary key or a unique column |
| `Tables.Consistent` | database/conn.py:24-64 | the declared constraints: uids are primary keys in each table, emails are unique, every order references a user and every item an order |
| `Tables.DeleteOrderCascade` | database/conn.py:64 | deleting an order removes exactly that order and exactly the items that reference it |
| `Tables.DeleteOrderCascadeConsistent` | database/conn.py:37-64 | after the cascade every remaining item still references an existing order, and keys stay unique |
| `Orders.TotalsMatch` | routes/orders.py:120-122 | the invariant the `total += price × quantity` of add_item and the `total -=` of remove_item (line 162) maintain: every order's stored total equals the sum of unit price × quantity over the items that reference it |
| `Orders.ItemsTotalNone` | routes/orders.py:18-23 | an order that no item references has line sum 0, so a new order's total 0 is correct |
| `Orders.ItemsTotalAppend` | routes/orders.py:116-123 | inserting an item raises its order's line sum by unit price × quantity and leaves every other order's sum unchanged |
| `Orders.ItemsTotalRemoveAt` | routes/orders.py:162-163 | deleting an item lowers its order's line sum by unit price × quantity and leaves every other order's sum unchanged |
| `Orders.ItemsTotalFilter` | database/conn.py:64 | cascading away another order's items leaves this order's line sum unchanged |
| `Orders.DeleteOrderCascadeTotals` | database/conn.py:64 | the cascade keeps every remaining order's total equal to the sum of its lines |
| `Orders.OpenOrder` | routes/orders.py:103-107 | NotFound exactly when the order is missing or CANCELLED |
| `Orders.AddItemGuard` | routes/orders.py:99-114 | NotFound for a missing or CANCELLED order, checked first; then Forbidden unless the actor is admin and owner; PENDING and COMPLETED orders both pass |
| `Orders.RemoveItemGuard` | routes/orders.py:144-161 | NotFound for a missing item, then NotFound for a missing or CANCELLED parent order, then Forbidden unless admin and owner; succeeds exactly when all three checks pass |
| `Orders.CompleteGuard` | routes/orders.py:186-201 | NotFound for a missing order, then Forbidden, then BadRequest for a CANCELLED order; succeeds exactly for an existing, non-CANCELLED order of an admin owner, so PENDING and COMPLETED pass |
| `Orders.CancelGuard` | routes/orders.py:42-53 | a non-admin is refused before the order is looked up; for an admin a missing order is an internal error, never NotFound; an admin acting on another user's order is Forbidden; any status of an order the admin owns is cancelled |
| `Orders.OnlyAdminOwnerMutates` | routes/orders.py:108-114 | add, remove, complete and cancel proceed only when the actor is an admin and owns the order acted on: the order with that uid, or, for remove, the order the item belongs to |
| `Orders.CheckOrderIsObservable` | routes/orders.py:40-114 | for a non-admin and a missing or cancelled order, add_item answers NotFound while cancel answers Forbidden (the two check orders differ) |
| `Orders.CreateOrder` | routes/orders.py:14-28 | inserts exactly one PENDING order with total 0 owned by the given user and changes no other row; an owner that does not exist fails the foreign key (500) |
| `Orders.CancelOrder` | routes/orders.py:31-59 | sets the order CANCELLED from any status; every failure is a 200 message body; the totals invariant is kept |
| `Orders.ListOrders` | routes/orders.py:62-85 | non-admins get 403 (raised outside the try block); admins get the orders at positions [offset, offset+limit), with offset 0 and limit 20 when omitted |
| `Orders.AddItemToOrder` | routes/orders.py:88-131 | on success inserts one item with the order's uid and raises that order's total by unit price × quantity, keeping every total equal to its line sum; every failure is a 500 carrying the guard's error |
| `Orders.RemoveItemFromOrder` | routes/orders.py:134-173 | on success deletes that item and lowers its order's total by its unit price × quantity (no lower bound), keeping every total equal to its line sum; every failure is a 500 |
| `Orders.CompleteOrder` | routes/orders.py:176-210 | sets COMPLETED (an already COMPLETED order stays COMPLETED) after the guard's checks; every failure is a 500 |
| `Orders.GetOrdersByUser` | routes/orders.py:213-234 | returns exactly the orders owned by the caller, in scan order and each once (distinct uids); when there are none, the NotFound leaves as a 500 |
| `Outcomes.Uncaught` | routes/orders.py:72-76 | an HTTPException raised outside any `try` (here list_orders' 403; likewise signup's 400 at routes/auth.py:28-31) answers with the exception's own status and keeps its error kind; a success passes its value through |
| `Outcomes.CaughtAs500` | routes/orders.py:127-131 | inside a `try`/`except Exception` block every failure, HTTP errors included, becomes a 500 that keeps the original error as its cause |
| `Security.ExpiresAt` | security/security.py:62-65 | expiry is now + delta for a given non-zero delta, and now + 30 minutes when the delta is None or zero |
| `Security.TokenClaims` | security/security.py:59-66 | the signed claims are the caller's claims plus `exp`; every other claim is kept unchanged |
| `Security.CreateAccessToken` | security/security.py:59-68 | the token is signed over exactly those claims: checking its signature gives them back |
| `Security.Decode` | security/security.py:80-81 | a token decodes exactly when its signature checks and its `exp`, if present, is a time after now |
| `Security.TokenRoundTrip` | security/security.py:59-68 | a token issued for a subject decodes to that subject before its expiry and fails to decode from then on |
| `Security.GetUser` | security/security.py:34-40 | returns a user with that email, or NotFound exactly when no user has it |
| `Security.GetUserUnique` | security/security.py:36-39 | with unique emails, get_user returns the very user holding the email |
| `Security.AuthenticateUser` | security/security.py:43-56 | NotFound exactly for an unknown email; Unauthorized exactly when the password does not verify against the stored hash; otherwise the stored user |
| `Security.SubjectEmail` | security/security.py:80-88 | Unauthorized exactly when the token does not decode or its `sub` is missing or null; the address looked up is the one TokenData's validation makes of `sub`; a `sub` that fails validation is a 500 |
| `Security.GetCurrentUser` | security/security.py:71-91 | a token whose validated subject is a registered email resolves to that user, and only such a token does; Unauthorized and Internal come exactly from reading the subject; an unknown subject is NotFound, so the final Unauthorized is unreachable |
| `Security.GetCurrentActiveUser` | security/security.py:94-102 | BadRequest exactly for an inactive user; otherwise the same user unchanged |
| `Security.VerifyRefreshToken` | security/security.py:105-142 | a verified refresh token yields a user of the table |
| `Security.RefreshVerifiesLikeAccess` | security/security.py:105-142 | refresh-token verification makes the same decision and error as access-token resolution on every token |
| `Security.IssuedTokenResolves` | security/security.py:59-91 | a token issued for a registered user resolves to that user until it expires, and to Unauthorized afterwards |
| `Auth.TokenPair` | routes/auth.py:54-66 | both tokens of a pair have token_type "bearer", and the response carries the given data |
| `Auth.TokenPairClaims` | routes/auth.py:54-60 | the access token's claims are {sub: email, exp: now + access lifetime, or 30 minutes when the setting is 0}; the refresh token's are {sub: email, exp: now + 7 days} |
| `Auth.Signup` | routes/auth.py:21-38 | a taken email is a 400 with the users table unchanged; otherwise exactly one active, non-admin user is inserted with the hash of the password, and its uid is returned; a password the declared pattern refuses is a 500 |
| `Auth.SignupThenAuthenticate` | routes/auth.py:32-38 | a user who just signed up authenticates with the same password |
| `Auth.Signin` | routes/auth.py:41-66 | a pair for the authenticated user's email with data {user_id, email}; 404 (NotFound) exactly for an unknown email, otherwise 401 (Unauthorized) for a wrong password; a failure carries authentication's own error and its status |
| `Auth.Refresh` | routes/auth.py:69-96 | a new pair, with data {email}, for the user the token resolves to; it fails exactly when verification fails, with the same error, so the handler's own 401 branch is unreachable |
| `Auth.SigninTokensRefresh` | routes/auth.py:77-95 | either token of a signin pair, presented before it expires, refreshes into a new pair for the same email |

## Left out

- Engine creation, sessions, `create_db_and_tables`, and commit/refresh are database plumbing. Each handler is one atomic step on the tables, and a failed commit changes nothing.
- Foreign keys are taken to be enforced, as declared. An order for an unknown user therefore fails at commit.
- JWT signing, the secret key and the algorithm are parameters of `Security.Env`. So are password hashing and verification (including the random salt) and the email-address validation. The validation is a function from a string to the normalised address, or to none when the string is not an address.
- Of the library's decode checks, only the signature and `exp` are modelled. Leeway, `nbf`, `iat`, audience and issuer checks are out, as is a type check on `sub`.
- The wall clock is the `now` parameter, in whole seconds. Sub-second parts of timestamps are not modelled.
- Money is exact `real` arithmetic. IEEE rounding of `total` and `unit_price` is not modelled.
- New uids from `uuid4` are parameters, required to be fresh in their table. A uid collision is not modelled.
- FastAPI routing, dependency injection and the bearer-token extraction are not modelled. The order handlers take the acting user, which the router obtains from `get_current_user` (`Security.GetCurrentUser`) before any handler runs.
- Route messages are not modelled. A response carries the error kind, or the order or uid the message names.
- Request-schema validation (name length, email syntax of the signup form, 422 answers) is done by the request parser and is not modelled.
- Async execution and concurrent lost updates of `total` are not modelled.
- `main.py` is application wiring.
- `get_current_active_user` is modelled, but no route uses it.
- ListOrders: offset and limit are natural numbers. What the database does with negative values depends on the engine and is not modelled.
- PasswordPatternExact: `\d` is read as an ASCII digit, and `$` as the end of the string. Python's engine also accepts non-ASCII digits and a single trailing newline; those are not modelled.

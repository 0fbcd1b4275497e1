# BreakfastWeb sandwich ordering: a Dafny model

BreakfastWeb is a small web application where colleagues order sandwiches
for a shared breakfast. An administrator manages the colleague roster and
the sandwich menu and clears the cart. Everyone can see what has been
ordered, either per sandwich or per colleague with prices.

This project models the application's core in Dafny and proves properties
of that model:

- the data layer of `models.py`, written as a `Store` class;
- the request-handling decisions of `app.py`, written as functions and
  methods over an explicit session record and form map.

Modules:

- `Wrappers`: the `Option` type.
- `Text`: Python's `str.strip()` over the full `isspace` set, and
  Python's `int()` on ASCII decimal text.
  - `int()` skips a narrower set of whitespace than `strip()`. The ASCII
    separators U+001C..U+001F count as whitespace for `strip()` but stop
    `int()`.
  - After the whitespace, `int()` allows one sign and `_` digit grouping.
  - It refuses more than 4300 digits, Python's default limit since 3.11
    and the 3.7.14, 3.8.14, 3.9.14 and 3.10.7 security releases.
  - The module proves the round trip `ParseInt(ShowInt(n)) == Some(n)` for
    every integer within that limit.
- `Ordering`: code-point string order, and a stable insertion sort used
  for `ORDER BY`. The sort is proved to give a sorted permutation.
- `Search`: first-match search over a sequence.
  - `FirstWhere` is the specification function.
  - `ScanFirst` is the loop with `break` that the handlers use to find a
    colleague or sandwich by name.
- `Models`: the row types; the table invariants (`Store.Valid`); the read
  queries as functions over the tables; and the inserts and deletes as
  `Store` methods.
  - Ids come from per-table `SERIAL` counters.
  - An insert that the database would refuse leaves the tables
    unchanged. That covers a duplicate `UNIQUE` name and a dangling
    foreign key.
  - The psycopg2 driver refuses any text parameter holding U+0000 with a
    `ValueError`, before the statement is sent (`DriverAccepts`). The
    inserts that take text, and the admin login query, model that refusal.
- `Aggregation`: the two order reports.
  - Totals per sandwich: a SQL `GROUP BY` with `SUM`.
  - Orders grouped by colleague with line prices: the Python loop that
    folds joined rows into a dictionary. It is written as the method
    `GroupByColleague` and proved equal to the recursive `Fold`.
    Separate lemmas relate `Fold` to an independent description of each
    bucket.
- `App`: the handler decisions.
  - The admin bootstrap at start-up.
  - Login, with admins checked by password and non-admins by name only.
  - Logout.
  - Order placement, where only admins may order for someone else.
  - The admin actions: add a colleague, add a sandwich, clear the cart.
  - The Flask session becomes a `Session` record with three optional
    keys. A POSTed form becomes a `map<string, string>`.

Prices are integer cents. Parsing the admin's price text (Python `float`)
is a function parameter `parsePrice`, and the model requires nothing of it.

The model follows the code, including these behaviours a reader might
not expect:

- The quantity of an order is whatever `int()` makes of the form field.
  Zero and negative quantities are accepted; nothing forces them positive.
- The start-up bootstrap does not guarantee an administrator. If a
  non-admin colleague already uses the name `admin`, the insert is refused
  and no administrator exists. `EnsureAdminExists` states this case.
- Non-admin login checks only the name. Any password the driver accepts
  is taken, and `UserLoginIgnoresPassword` states this. A name or password
  holding U+0000 makes the admin query fail, so nobody signs in
  (`LoginRefusesNul`).
- A sandwich name holding U+0000 makes the insert raise `ValueError` inside
  the handler's `try`, so the admin sees "Price must be a number." and
  nothing is inserted.

## Model

| member | source | states |
|---|---|---|
| Models.AllColleagues | models.py:8 | definition: the table sorted by name; stated by `AllColleaguesListing` |
| Models.Available | models.py:40 | a sandwich is kept iff it is in the table and available |
| Models.AvailableSandwiches | models.py:40 | definition: the available sandwiches sorted by name; stated by `AvailableSandwichesListing` |
| Models.AllColleaguesListing | models.py:6-11 | the colleague listing holds exactly the table's rows, each as often as in the table, sorted by name |
| Models.AvailableSandwichesListing | models.py:38-43 | a sandwich is listed iff it is in the table and available; the listing is sorted by sandwich name |
| Models.AdminByCredentials | models.py:14-19 | a row is returned only if it is an admin with exactly that name and password; nothing is returned iff no such admin exists |
| Models.AdminExists | models.py:28-33 | true iff some colleague row is an admin |
| Models.Store.AddColleague | models.py:21-25 | the insert succeeds iff the driver accepts the name and password (no U+0000) and the name is unused; the new row gets the next serial id and the given flag and password; the id sequence advances iff the statement was sent; other tables are unchanged and the table invariants are kept |
| Models.Store.AddSandwich | models.py:45-49 | the insert succeeds iff the driver accepts the name and it is unused; the new row is available and gets the next serial id; the id sequence advances iff the statement was sent; the invariants are kept |
| Models.Store.CreateOrder | models.py:53-59 | an order id is returned iff the colleague exists; that id is fresh and the order row is appended; otherwise no row is added |
| Models.Store.AddItem | models.py:70-74 | the item is appended iff its order and sandwich exist; otherwise the tables are unchanged |
| Models.Store.ClearAll | models.py:61-66 | orders and order items become empty; colleagues, sandwiches and counters are unchanged; the invariants are kept |
| Aggregation.Groups | models.py:84-87 | a total appears iff some sandwich has at least one item, and it carries that sandwich's summed quantity |
| Aggregation.TotalsBySandwich | models.py:83-88 | definition: the groups in sandwich-name order; stated by `TotalsBySandwichRows` and `TotalsBySandwichConserve` |
| Aggregation.GroupsOnePerSandwich | models.py:84-87 | with unique sandwich ids, no two groups carry the same sandwich id |
| Aggregation.TotalsBySandwichOnePerSandwich | models.py:83-88 | with unique sandwich ids, `GROUP BY s.sandwich_id` reports each sandwich at most once |
| Aggregation.TotalsBySandwichRows | models.py:76-93 | a total row appears iff some sandwich has at least one item, and then it carries that sandwich's id, name and summed quantity; the rows are sorted by sandwich name |
| Aggregation.TotalsBySandwichConserve | models.py:83-88 | when every item references a sandwich with a unique id, the per-sandwich totals add up to the sum of all item quantities |
| Aggregation.Step | models.py:126-142 | definition: one row's line appended to its colleague's bucket, created empty and keyed on first encounter; stated by `FoldBucket` and `FoldKeysOrdered` |
| Aggregation.Fold | models.py:124-144 | definition: `Step` over the rows from an empty dictionary; stated by `FoldBucket`, `FoldKeysDomain`, `FoldKeysOrdered` and `FoldItemCount` |
| Aggregation.GroupByColleague | models.py:124-144 | the dictionary-building loop yields exactly the fold of the rows: keys in insertion order and one bucket per key |
| Aggregation.FoldBucket | models.py:124-144 | a colleague has a bucket iff some row names them; the bucket's items are that colleague's rows in order as (sandwich, quantity, price x quantity), and its total is the sum of those line prices |
| Aggregation.FoldKeysDomain | models.py:132-136 | a name is in the key list iff it is in the dictionary |
| Aggregation.FoldKeysOrdered | models.py:132-136 | the keys appear in the order in which each colleague is first mentioned in the rows, with no repeats |
| Aggregation.FoldItemCount | models.py:125-141 | the buckets together hold exactly one item per row |
| Aggregation.JoinRows | models.py:113-117 | definition: the inner join of each order item with its order, colleague and sandwich; stated by `JoinRowsComplete` |
| Aggregation.DetailRows | models.py:112-119 | definition: the joined rows ordered by colleague name then sandwich name; stated by `DetailRowsListing` |
| Aggregation.JoinRowsComplete | models.py:112-119 | with intact foreign keys, the inner joins drop no order item: there are exactly as many joined rows as items |
| Aggregation.DetailRowsListing | models.py:112-119 | the joined rows are sorted by colleague name then sandwich name, and there are as many as order items when the foreign keys hold |
| Aggregation.OrdersGroupedByColleague | models.py:95-144 | the report is the fold of the sorted joined rows, and its buckets hold exactly one item per order item |
| Ordering.SortBySorted | models.py:118 | ORDER BY yields rows sorted by any total preorder |
| Ordering.SortByDistinct | models.py:88 | ORDER BY never makes two rows share a key that was unique before |
| Ordering.SortByMembers | models.py:8 | ORDER BY neither adds nor drops a row |
| Search.FirstWhere | app.py:44-48 | the result is the least index whose element matches, or none iff no element matches |
| Search.ScanFirst | app.py:84-87 | the loop with break returns the same index as `FirstWhere` |
| Text.Trim | app.py:30-31 | the stripped string is no longer than the input and has no whitespace at either end |
| Text.TrimSlice | app.py:30-31 | the stripped string is a contiguous slice of the input, and everything cut off is whitespace |
| Text.TrimKeeps | app.py:30-31 | `strip()` keeps every character that is not whitespace, U+0000 among them |
| Text.TrimIdempotent | app.py:30-31 | stripping twice is the same as stripping once |
| Text.IntStrip | app.py:77-78 | what `int()` goes on to parse has none of the whitespace `int()` skips at either end |
| Text.ParseInt | app.py:77-78 | a number is read only from nonempty stripped text; definition (optional sign, well-formed digits, at most 4300 of them); stated by `ParseShowInt`, `ParseIntIgnoresSpace` and `SeparatorStopsInt` |
| Text.ParseShowInt | app.py:77-78 | `int()` of an integer's decimal text gives back that integer when it has at most 4300 digits, and refuses it otherwise |
| Text.ParseIntIgnoresSpace | app.py:77-78 | whitespace that `int()` skips, before or after the number, never changes what it reads |
| Text.SeparatorStripped | app.py:30-31 | the separators U+001C..U+001F are whitespace that `strip()` removes |
| Text.SeparatorStopsInt | app.py:77-80 | text that starts with one of those separators never parses as an integer |
| App.EnsureAdminExists | app.py:10-13 | afterwards an admin exists iff the bootstrap succeeded; nothing changes if an admin existed; otherwise an admin named `admin` with the default password is inserted, unless that name is taken or the driver refuses the password; only the colleague id sequence can advance |
| App.SignIn | app.py:33-55 | a found principal sets user id, name and admin flag in the session, and the admin guard passes iff the principal is an admin; no principal leaves the session unchanged |
| App.Login | app.py:28-58 | the handler signs in whatever `LoginOutcome` finds for the stripped name and password fields, defaulting to empty text |
| App.Authenticate | app.py:33-55 | definition: the admin query first, then the first non-admin with that name in the listing; stated by `AuthenticateAdmin` and `AuthenticateUser` |
| App.Attempt | app.py:33-55 | definition: nobody when the driver refuses either field, otherwise `Authenticate`; stated by `LoginRefusesNul`, `AuthenticateAdmin` and `AuthenticateUser` |
| App.LoginOutcome | app.py:30-55 | definition: `Attempt` on the stripped name and password; stated by `LoginIgnoresSurroundingSpace` and `LoginRefusesNul` |
| App.LoginRefusesNul | app.py:30-33 | a name or password holding U+0000 signs nobody in, since the admin query fails in the driver |
| App.AuthenticateAdmin | app.py:33-40 | an admin principal is produced iff some admin row has that exact name and password, and it carries that row's id and name |
| App.AuthenticateUser | app.py:42-55 | a non-admin principal is produced iff no admin matches the credentials and some non-admin row has that name; it carries that row's id and name |
| App.UserLoginIgnoresPassword | app.py:45-46 | once the driver has taken both fields and no admin row matches, the password makes no difference to who signs in |
| App.LoginIgnoresSurroundingSpace | app.py:30-31 | whitespace around the submitted name and password does not change the login outcome |
| App.Logout | app.py:160-164 | all session keys are cleared, so neither the sign-in nor the admin guard passes |
| App.ResolveColleagueFinds | app.py:83-87 | a colleague id is found iff the listing has that name, and it is the id of a row with that name |
| App.ResolveSandwichFinds | app.py:89-94 | a sandwich id is found iff an available sandwich has that name, and it is that sandwich's id |
| App.PlanOrderResolves | app.py:69-96 | with positive ids, an order is planned iff both the target colleague and an available sandwich resolve; the plan carries their ids and the parsed quantity |
| App.NonAdminOrdersForSelf | app.py:70-73 | for a non-admin session the submitted colleague name has no effect: the order is for the signed-in user |
| App.QuantityAsGiven | app.py:76-80 | an integer's decimal text of at most 4300 digits is taken as that quantity, and a longer one gives 1; unparseable text, text after a U+001C..U+001F separator and a missing field give 1 |
| App.ParseQuantity | app.py:76-80 | definition: `int()` of the text, or 1 when it raises; stated by `QuantityAsGiven` |
| App.TargetName | app.py:70-73 | definition: the form's colleague name for an admin, the session's user name otherwise; stated by `NonAdminOrdersForSelf` |
| App.PlanOrder | app.py:69-96 | definition: both names resolved against the listings, with the parsed quantity; stated by `PlanOrderResolves` and `PlanOrderInTables` |
| App.PlanOrderInTables | app.py:83-98 | a planned order references a colleague and a sandwich that are in the tables |
| App.ResolveOrder | app.py:69-94 | the two search loops produce exactly the planned order |
| App.PlaceOrder | app.py:61-102 | unsigned sessions change nothing; a resolved plan appends exactly one order and one item with the fresh order id and advances only the order id sequence; an unresolved plan changes nothing; the invariants are kept |
| App.AddColleagueValidated | app.py:120-129 | an add-colleague command is issued iff the action is `add_colleague` and the stripped name and password are nonempty; it carries the stripped values, and the admin flag is set iff the box says `on` |
| App.AddSandwichValidated | app.py:135-146 | an add-sandwich command is issued iff the action is `add_sandwich`, the stripped name and price are nonempty and the price parses; it carries the stripped name and the parsed price |
| App.ColleagueCommand | app.py:125-129 | definition: add the colleague when both fields are nonempty, else reject; stated by `AddColleagueValidated` |
| App.SandwichCommand | app.py:138-146 | definition: add the sandwich when both fields are nonempty and the price parses, else the matching rejection; stated by `AddSandwichValidated` |
| App.DecideAdmin | app.py:120-146 | definition: dispatch on the `action` field to the stripped fields' command; stated by `AddColleagueValidated` and `AddSandwichValidated` |
| App.AdminPage | app.py:114-148 | non-admin sessions change nothing. Past the guard, each command has its effect on the store: insert if the driver accepts the text and the name is free, or clear orders and items. Every id sequence is stated. A sandwich name the driver refuses is reported as "price not a number" and changes nothing; a rejected form is `Refused` and an unknown action is `NoAction`, both changing nothing |

## Left out

- `database.py` is not part of this model. Connections, cursors and commits are abstracted away, and each query acts on the `Store` tables directly.
- The SQL schema file is not part of this model. The model assumes `UNIQUE` colleague and sandwich names, `SERIAL` ids and foreign keys from orders to colleagues and from items to orders and sandwiches. A statement the engine refuses leaves the tables unchanged, though the serial counter may advance.
- A refused insert raises an exception in the source, which becomes a failed request or a failed start-up. The model returns `ok = false`, `None` or `StorageRefused` instead.
- Collation: names are ordered by Unicode code point. The database's locale collation may order them differently.
- Ties under `ORDER BY` come in an order the engine picks. The model uses a stable sort over table order. The per-colleague fold is proved for any row sequence, so its properties do not depend on that order.
- Models.Store.CreateOrder: the source raises on a missing colleague. The model returns `None` and adds no row; the serial counter still advances, as a sequence does on a failed insert.
- `is_admin` is modelled as a plain `bool`. A NULL flag, which neither admin login nor user login accepts, is not modelled.
- Prices are integer cents, not floating point. Python's `float()` of the price text is the parameter `parsePrice`, so values like `nan` or `inf` are whatever that parameter returns.
- Text.ParseInt: only ASCII digits are modelled. Python also accepts other Unicode decimal digits.
- Text.ParseInt: the 4300-digit limit is the default since Python 3.11 and the 3.7.14, 3.8.14, 3.9.14 and 3.10.7 security releases. Older releases have no limit, and a changed `sys.set_int_max_str_digits` setting is not modelled.
- Flask routing, templates, `flash` messages, redirects and session cookies are left out. Handlers return an outcome value or a new session instead.
- The `/` home route is left out: it only redirects. The GET branches of the handlers are left out too: they only render.
- The `/details` route has no sign-in guard in the source. It is modelled as `OrdersGroupedByColleague`, which any caller may use.
- A session with a user id but no user name raises `KeyError` in the order handler. The model treats the missing name as matching no colleague.
- App.PlaceOrder: column ranges and `CHECK` constraints on `order_items.quantity` are not modelled, because the schema is not part of this model. The model promises that the order and its item are both inserted. In the source, `Order.create` is committed before `OrderItem.add_item` runs. A quantity the column refuses, such as one beyond a 32-bit `INTEGER` or a zero under a `CHECK (quantity > 0)`, would then leave an order with no item.
- Models.Store.AddItem: refuses only a dangling foreign key and accepts any integer quantity, for the same reason.
- `Order.clear_all` runs two deletes without a transaction. Interleaving with concurrent requests is not modelled.
- `SECRET_KEY` is not modelled. `ADMIN_DEFAULT_PASS` is a parameter of `EnsureAdminExists`.
- Passwords are stored and compared as plain text, as in the source. No hashing is modelled.
- Models.AdminByCredentials: returns the whole matching row rather than only its id and name.

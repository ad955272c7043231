# Pedidos: back-end engine and cart store

This project models an ordering application for a chain of branches ("sucursales") in Dafny. The application has two parts.

- **The Express back end (`server.js`).** It is modelled as the class `Server.Engine`, which has two fields:
  - `sessions`: a map from token to a session snapshot `{userId, tipo, sucursalId}`;
  - `db`: a record holding the sequences `users`, `productos`, `categories`, `productCategories`, `sucursales` and `orders`.

  Each endpoint is a method. It returns `Ok(payload)`, `Err400`, `Err401`, `Err403` or `Err404`. Its `modifies` clause names the one field it may change.
- **The cart provider (`src/context/CartContext.jsx`).** It is modelled as the class `Cart.CartStore`, with a `cart: seq<LineItem>` field and an `isOpen` field. A cart line is `Store.LineItem`, the same record the cart page posts as an order's `items` (src/components/Cart.jsx:32).

Roles follow `src/context/AuthContext.jsx:37-42`: `tipo` 1 is Admin, 2 is Limited and 3 is Full. Category 4 is the cleaning category.

The role filters, the category-assignment index and its cascades, order pricing and the analytics report are specification functions in modules of their own (`Policy`, `Orders` and `Analytics`). The endpoint methods are proved against those functions, and the functions carry the lemmas.

Modules:
- `Common`: `Option`, `Response`, JavaScript truthiness of optional numbers and strings, `Filter`, `Find`, `FindIndex`, the projection of records to their ids, lookup by id, and the `max + 1` id rule.
- `Store`: the records, password redaction, id projections, username uniqueness.
- `Policy`: the role filters, `product_categories` maintenance, and the GET /orders/:id decision.
- `Orders`: price capture and the order total, computed by a loop.
- `Analytics`: the month/year selection, the per-product tally loop, the ranking (insertion sort) and the top 10.
- `Cart`: the cart operations as functions on sequences, and the `CartStore` class.
- `Server`: the `Engine` class and its endpoints.

Some parts of the code are modelled as written, even where the behaviour may look surprising:
- The status PATCH accepts any `estado`.
- Deleting yourself gives 400, not 403.
- `GET /products/:id` applies no role filter.
- Deleting a missing product, category or user still succeeds.
- Login does not check that the new token is fresh: a colliding token overwrites the old session, as `Map.set` does.
- Sessions are snapshots. A user update or delete does not change them (`UpdateUser` and `DeleteUser` modify only `db`).

Money is modelled in integer cents, and an order's date as `Date(year, month)`.

## Model

| member | source | states |
|---|---|---|
| Common.Ids | server.js:188 | the id of every record, in the records' order |
| Common.IndexOfId | server.js:210 | the position of the first record with the id, or -1 exactly when no record has it; every findIndex-by-id lookup of the handlers (server.js:210, 249, 327, 472) |
| Common.NextId | server.js:188 | the new id is larger than every existing id; it is 1 for an empty table and max + 1 otherwise |
| Common.FilterKeepsDistinctIds | server.js:272 | removing records by a filter keeps the remaining ids distinct |
| Common.NextIdKeepsDistinct | server.js:188 | appending the next id to distinct ids keeps them distinct |
| Store.Redact | server.js:410 | the public view of a user keeps every field except the password |
| Policy.Reassign | server.js:290-296 | afterwards the product has exactly one row, with that category, when `categoryId` is truthy, and none otherwise; every other product's rows are unchanged |
| Policy.ReassignKeepsSingle | server.js:290-296 | reassigning keeps every product at one category at most |
| Policy.WithoutProduct | server.js:274 | the deleted product has no rows left; the other products' rows are unchanged |
| Policy.WithoutCategory | server.js:348 | a row survives exactly when it does not point at the deleted category; no product gains rows |
| Policy.CleaningProductIds | server.js:92-94 | an id is listed exactly when some row assigns that product to category 4 |
| Policy.VisibleProducts | server.js:91-97 | a Limited user gets exactly the products with no category-4 row; every other role gets the stored list |
| Policy.VisibleProductsInOrder | server.js:96 | the product filter distributes over concatenation, so it never reorders |
| Policy.VisibleCategories | server.js:120-122 | a Limited user gets exactly the categories other than 4; every other role gets the stored list |
| Policy.VisibleCategoriesInOrder | server.js:121 | the category filter distributes over concatenation |
| Policy.VisibleOrders | server.js:139-141 | an Admin gets every order; anyone else gets exactly the orders with their own `userId` |
| Policy.VisibleOrdersAppend | server.js:139-141 | an appended order appears at the end of exactly the lists of an Admin and of its owner |
| Policy.ReadOrder | server.js:155-164 | 404 exactly when no order has the id, decided before permissions; 403 exactly when a non-Admin does not own the first order with the id; otherwise the first order with the id, which the caller may see |
| Orders.PriceOf | server.js:181-182 | the price of the first product with the id, or 0 when there is none |
| Orders.Priced | server.js:180-185 | each stored line is the requested line with its captured price |
| Orders.LinesTotalAppend | server.js:183 | the total of a concatenation is the sum of the totals |
| Orders.LinesTotalNonNegative | server.js:183 | non-negative prices and positive quantities give a non-negative total |
| Orders.PriceItems | server.js:179-185 | the loop yields the priced lines and the total Σ precio × cantidad over them |
| Orders.TwoLineOrderTotal | server.js:179-185 | with a catalogue pricing two distinct products at 10.00 and 5.50, pricing an order of 2 of the first and 1 of the second totals 25.50 |
| Analytics.SelectOrders | server.js:366-372 | orders are filtered by month and year only when both are given, and then exactly the orders of that month and year are kept |
| Analytics.CountInUnmentioned | server.js:379 | a product no line names counts 0 |
| Analytics.Bump | server.js:379 | a product without a counter gets a new one, last, equal to the quantity; otherwise only the first counter of that product grows by the quantity |
| Analytics.BumpTallies | server.js:379 | adding one line's quantity to its product's counter keeps the tally exact |
| Analytics.TallyItems | server.js:376-381 | the outer loop produces one counter per named product, each equal to the sum of `cantidad` over the selected lines |
| Analytics.TallyStep | server.js:378-379 | counting the next line of an order keeps the tally exact |
| Analytics.TallyLines | server.js:377-380 | the inner loop over one order's lines extends an exact tally to those lines |
| Analytics.SnocCounts | server.js:379 | one more line adds its quantity to its product's total and to no other |
| Analytics.Insert | server.js:392 | inserting into a ranked list yields a ranked list with the same elements plus the new one |
| Analytics.Rank | server.js:383-392 | the sort returns a permutation of its input ordered by count, descending, with ties in ascending id |
| Analytics.NameOf | server.js:385-388 | a product's name is its `articulo`, or "Desconocido" when the product is missing or has an empty name |
| Analytics.Entries | server.js:383-391 | one entry per counter, with that counter's id and count and the product's name |
| Analytics.TopOf | server.js:393 | the report is a prefix of the ranking: all of it when it has ten entries or fewer, otherwise the first ten |
| Analytics.EntriesOfTally | server.js:383-391 | the entries of an exact tally hold each named product once, with its exact count and name |
| Analytics.RankSameElements | server.js:392 | sorting neither adds nor drops an entry |
| Analytics.TopContains | server.js:392-393 | an entry of a ranked list is in the first ten, or the tenth ranks before it |
| Analytics.TopEntries | server.js:383-393 | the top ten of exact entries is ranked, each entry a named product with its exact count and name, and no product appears twice |
| Analytics.TopCompleteness | server.js:383-393 | every named product is in the top ten, or ten entries rank before it |
| Analytics.TopOfTally | server.js:375-393 | the top ten built from an exact tally has all the properties above |
| Analytics.DistinctAfterPermutation | server.js:392 | sorting keeps the product ids distinct |
| Analytics.Aggregate | server.js:363-399 | `totalOrders` and `ordersByMonth` both count the selected orders; at most ten entries, ranked and distinct; each with its exact count and name; no product missing that outranks the last entry |
| Cart.ItemCountAppend | src/context/CartContext.jsx:71 | `itemCount` of a concatenation is the sum of the counts |
| Cart.ItemCountReplace | src/context/CartContext.jsx:71 | replacing a line changes `itemCount` by the difference of the quantities |
| Cart.FindVariant | src/context/CartContext.jsx:24-30 | the first line with the same product, size, lid, lid type and filter, or -1 when none has them |
| Cart.Added | src/context/CartContext.jsx:22-39 | an existing variant absorbs the quantity, so the length stays the same and the other lines are unchanged; a new variant is appended; `itemCount` grows by the item's quantity |
| Cart.AddedKeepsNoDuplicates | src/context/CartContext.jsx:24-38 | adding never gives a variant a second line |
| Cart.Removed | src/context/CartContext.jsx:43-45 | exactly the line at the index is dropped and the rest keep their order; an out-of-range index changes nothing |
| Cart.RemovedItemCount | src/context/CartContext.jsx:43-45 | removing a line takes its quantity off `itemCount` |
| Cart.ItemCountWithout | src/context/CartContext.jsx:44 | the count without one line is the count less that line's quantity |
| Cart.RemovedKeepsNoDuplicates | src/context/CartContext.jsx:43-45 | removing keeps the remaining variants distinct |
| Cart.WithQuantity | src/context/CartContext.jsx:47-53 | only that line's `cantidad` changes; the length and variants are kept, and `itemCount` moves by the difference |
| Cart.CartStore.constructor | src/context/CartContext.jsx:6-7 | the cart starts empty and closed |
| Cart.CartStore.AddToCart | src/context/CartContext.jsx:22-41 | the cart becomes `Added(old cart, item)` and the panel opens; `itemCount` grows by the item's quantity; no duplicate variants are introduced |
| Cart.CartStore.RemoveFromCart | src/context/CartContext.jsx:43-45 | the cart becomes `Removed(old cart, index)`; `itemCount` drops by the removed quantity; `isOpen` is kept |
| Cart.CartStore.UpdateQuantity | src/context/CartContext.jsx:47-53 | the cart becomes `WithQuantity(old cart, index, cantidad)`; `isOpen` is kept |
| Cart.CartStore.ClearCart | src/context/CartContext.jsx:55-57 | the cart is empty and `itemCount` is 0 |
| Cart.CartStore.ToggleCart | src/context/CartContext.jsx:59-61 | `isOpen` is negated and the cart is unchanged |
| Cart.ToggleTwice | src/context/CartContext.jsx:59-61 | toggling twice restores the panel state and the cart |
| Server.FindCredentials | server.js:37 | a user is found exactly when some user has both that username and that password, and the one found is the first that has them |
| Server.SucursalOf | server.js:145 | the first branch with the id the order names; none for a null branch or an unknown id |
| Server.Annotate | server.js:144-147 | every order keeps its place and gets its branch |
| Server.Revoked | server.js:66-68 | a non-empty token is removed from the session map; otherwise the map is unchanged |
| Server.RevokedIdempotent | server.js:64-70 | logging out twice is logging out once |
| Server.NewUserRecord | server.js:446-455 | the stored user gets the next id and the given fields; a falsy branch becomes null, a missing flag false and a missing category list empty |
| Server.Patched | server.js:487-496 | given fields replace the stored ones; username, password and nombre keep their stored value when omitted or empty; every other omitted field is kept; the id never changes |
| Server.PatchKeepsUniqueUsernames | server.js:480-496 | a patch that passes the duplicate check keeps usernames unique |
| Server.AppendUserKeepsUnique | server.js:441-457 | a new user with an unused username and the next id keeps usernames unique and ids distinct |
| Server.ProductsWithout | server.js:272 | a product survives exactly when its id differs |
| Server.CategoriesWithout | server.js:346 | a category survives exactly when its id differs |
| Server.UsersWithout | server.js:518 | a user survives exactly when their id differs |
| Server.UsersWithoutKeepsUnique | server.js:518 | deleting users keeps usernames unique |
| Server.OrderDetailOf | server.js:166-170 | the order with its branch and the full record of the first user with the order's `userId`; no owner when no user has it |
| Server.OrderDetailLeaksPassword | server.js:168-170 | the detail's `user` is the owner's stored record, password included |
| Server.RedactedOrderDetailOf | server.js:166-170 | the owner appears exactly as the /users endpoints show them, without the password |
| Server.Engine.constructor | server.js:30 | no sessions, and the given database |
| Server.Engine.Authenticate | server.js:73-83 | 401 exactly when the token is missing or not in the session map; otherwise the stored snapshot |
| Server.Engine.AuthenticateAdmin | server.js:205-207 | 401 as `authenticate` decides; then 403 exactly when the session's `tipo` is not 1 |
| Server.Engine.Login | server.js:33-61 | success exactly when a user matches both the username and the password; the snapshot of the first such user is stored under the token, and the reply carries the token and the user without the password; on failure 401 and the sessions are unchanged |
| Server.Engine.Logout | server.js:64-70 | always succeeds; a given token is removed, so it no longer authenticates |
| Server.Engine.GetProducts | server.js:86-100 | 401 when not authenticated; otherwise the catalogue filtered for the caller's role |
| Server.Engine.GetProduct | server.js:103-112 | 401, then 404 exactly when no product has the id; otherwise the first such product, whatever the role |
| Server.Engine.GetCategories | server.js:115-125 | 401 when not authenticated; otherwise the categories filtered for the caller's role |
| Server.Engine.GetSucursales | server.js:128-131 | 401 when not authenticated; otherwise every branch |
| Server.Engine.GetOrders | server.js:134-150 | 401 when not authenticated; otherwise the caller's visible orders in stored order, each with its branch |
| Server.Engine.GetOrder | server.js:153-171 | 401; then the read decision's 404 or 403; otherwise the order detail |
| Server.Engine.CreateOrder | server.js:174-201 | 401 leaves the database unchanged; otherwise the order is appended with the next id, the caller's `userId` and branch, the captured prices, their total, the given date and "pendiente"; nothing else changes and order ids stay distinct |
| Server.Engine.UpdateOrderStatus | server.js:204-221 | 401/403 leave the database unchanged; 404 for an unknown id; otherwise only the first matching order's `estado` changes, to the value supplied |
| Server.Engine.CreateProduct | server.js:224-240 | 401/403 change nothing; otherwise a product with the next id, the name and the price (0 when none is given) is appended; product ids stay distinct |
| Server.Engine.UpdateProduct | server.js:243-263 | 401/403/404 change nothing; otherwise only that product changes: a given name replaces the old one, and a price replaces the old one unless it is missing or 0 |
| Server.Engine.DeleteProduct | server.js:266-278 | 401/403 change nothing; otherwise success whether or not the product exists, with the product and all its category rows gone; at most one category per product still holds, and distinct product ids stay distinct |
| Server.Engine.AssignCategory | server.js:281-300 | 401/403 change nothing; otherwise the assignment index becomes `Reassign`, even for an unknown product; at most one category per product still holds |
| Server.Engine.CreateCategory | server.js:303-318 | 401/403 change nothing; otherwise a category with the next id is appended; category ids stay distinct |
| Server.Engine.UpdateCategory | server.js:321-337 | 401/403/404 change nothing; otherwise only that category's name changes, when one is given |
| Server.Engine.DeleteCategory | server.js:340-352 | 401/403 change nothing; otherwise success whether or not the category exists, with the category and every row assigning it gone; at most one category per product still holds, and distinct category ids stay distinct |
| Server.Engine.GetAnalytics | server.js:355-400 | 401/403 for non-admins; otherwise a report with the properties of `Aggregate` |
| Server.Engine.GetUsers | server.js:403-412 | 401/403 for non-admins; otherwise every user, in order, without the password |
| Server.Engine.GetUser | server.js:415-430 | 401/403; 404 for an unknown id; otherwise the first user with the id, without the password |
| Server.Engine.CreateUser | server.js:433-463 | 401/403 change nothing; 400 exactly when the username exists, with nothing changed; otherwise the new record is appended and returned without the password; unique usernames and distinct ids are kept |
| Server.Engine.UpdateUser | server.js:466-502 | 401/403; 404 for an unknown id, checked first; 400 when another id holds the requested username; otherwise only that user becomes the patched record; unique usernames and distinct ids are kept |
| Server.Engine.DeleteUser | server.js:505-522 | 401/403; 400 for the caller's own id, with users unchanged; otherwise success whether or not the id exists, with that id's users gone; unique usernames are kept |

## Left out

- HTTP plumbing is not modelled: Express routing, CORS, body parsing and `app.listen`. Neither is the whole-file JSON read and write of the database. The database is the `db` field.
- Token generation with `Math.random` is not modelled. `Login` takes the token as a parameter.
- The `Authorization` header is given as an optional token, with the `Bearer ` prefix already stripped.
- Policy.Reassign: `categoryId` is an optional integer, and only 0 or an absent value clear the product's category. The admin form sends the `<select>` value as a string (src/components/ProductFormModal.jsx:45-46, src/services/api.js:49). In the source the string "0" is truthy, so `parseInt` stores a row with category 0 (server.js:294-295), where the model clears; a non-numeric string, stored as NaN, is not modelled either.
- Server.Engine.AssignCategory: inherits the number-versus-string gap of Policy.Reassign.
- Routing parameters and query strings are taken as integers. Non-numeric values, which `parseInt` turns into NaN, are not modelled.
- Server.Engine.CreateOrder: prices and totals are exact integer cents. The floating-point `parseFloat` and `toFixed(2)` rounding are not modelled. The creation time is a `Date(year, month)` supplied by the caller, not the clock.
- Analytics.SelectOrders: the month and year come from the stored `Date`. Parsing the ISO timestamp in the local time zone is not modelled.
- Analytics.Aggregate: equal quantities are ranked by ascending product id, for every integer id. In the source, `Object.entries` (server.js:383) lists only the array-index keys (0 up to 2^32 - 2) in ascending order; any other id, negative or larger, comes after them in the order it was first counted (server.js:379), and the stable sort (server.js:392) keeps that order among equal quantities. For such ids the model's order differs: with equal counts, product -1 ranks before product 3 in `Analytics.Rank`, while the source puts 3 first.
- Analytics.Rank: same tie order as Analytics.Aggregate, so it departs from the source for negative ids and ids from 2^32 - 1 upward.
- Server.Engine.CreateProduct: only `articulo` and `precio` are modelled. The other request fields copied by `...req.body` are not, and neither is a body `id` overriding the computed one.
- Server.Engine.UpdateProduct: only `articulo` and `precio` are modelled, for the same reason as CreateProduct.
- Server.Engine.CreateCategory: only `nombre` is modelled. The other request fields spread into the record are not.
- Server.Engine.UpdateCategory: only `nombre` is modelled. The other request fields spread into the record are not.
- Server.Engine.UpdateOrderStatus: `estado` is always a string. An absent `estado`, which would drop the field from the stored JSON, is not modelled.
- Server.Engine.CreateOrder: `items` is always a sequence. A missing `items`, which makes the handler throw, is not modelled.
- Server.Engine.CreateUser: `username`, `password`, `nombre` and `tipo` are always given (`sucursalId`, `viewAllCategories` and `allowedCategories` may be absent and are modelled as optional). An absent `username`, `password` or `nombre`, stored as `undefined`, is not modelled; neither is an absent or non-numeric `tipo`, which `parseInt` stores as NaN (server.js:451).
- Cart.CartStore.AddToCart: the source updates the shared line object inside a copied array. The model replaces the line by value, so aliasing between renders and double-invoked state updaters are not modelled.
- Cart.CartStore.UpdateQuantity: the same shared-object update happens here (src/context/CartContext.jsx:50), and the model again replaces the line by value, so the aliasing is not modelled.
- Cart.CartStore.UpdateQuantity: it requires a valid index. Out of range, the source throws a TypeError.
- Not modelled: the localStorage persistence of the cart, the session restore in `AuthContext`, the React pages and components, the axios service, and PDF and Excel export.
- Concurrency: the code has none.

## Findings

| source | as written | input that shows it | evidently intended | confidence | as-written member | corrected member |
|---|---|---|---|---|---|---|
| server.js:166-170 | GET /orders/:id attaches the owner's stored user record, password included | any order whose owner exists, e.g. a user with id 1 and password "secreto" who owns an order: the response's `user.password` is "secreto" | the owner without the password, as GET /users and GET /users/:id send it (server.js:409-410, 427-428) | medium; not executed | Server.OrderDetailLeaksPassword | Server.RedactedOrderDetailOf |

`Server.Engine.GetOrder` returns the detail as written, so the endpoint model stays faithful to the code. `Server.RedactedOrderDetailOf` is the corrected detail, and it is proved to equal the as-written detail with the owner redacted.

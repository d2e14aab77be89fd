# Coffee-shop cart backend: a Dafny model

This project models the cart and order lifecycle of a small Express/Mongoose
backend. Accounts register and log in. A bearer-token guard admits them.
They fill carts with lines priced from coffee-shop listings. An
administrator marks carts as paid. A final error handler turns every thrown
error into a JSON reply.

The three Mongoose collections (accounts, listings, carts) are finite maps
from document id to record. They are the fields of the class
`Store.Database`, together with the counter that hands out fresh ids.
`Database.Valid()` holds what the stored data satisfies:
- the unique indexes on email, userName and coffee_name hold (MongoDB enforces these);
- every stored document passed its schema's validation (Mongoose enforces this);
- every cart belongs to a registered account. The database does not enforce
  this. It is an invariant the modelled handlers keep, because none of them
  deletes an account.

Every handler that writes is a method over the database that preserves
`Valid()`. It is specified by a pure function that decides the write
(`MakeCartWrite`, `UpdateCartWrite`, `SetPaid`, `RegisterCheck`). The
properties are proved as lemmas about those functions. The two loops of the
cart handlers are methods with loop invariants:
- the pricing loop of `makecart` is `CartPricing.PriceItems`;
- the merge loop of `updateCart` is `CartMerge.MergeItems`.

Each loop is proved equal to a recursive specification function (`Price`,
`MergeAll`) whose properties are lemmas.

How the JavaScript error flow is modelled:
- A thrown error is a `JsErrors.Exn` with a name, a message and an optional
  `statusCode`.
- The controllers' `catch` blocks re-throw ``new Error(`${error}`)``; that is
  `JsErrors.Rewrap`.
- `ErrorMiddleware.Handle` is the final handler as written. `ErrorMiddleware.HandleIntended` is the same handler with the corrected status selection (see Findings).
- Handlers that write their own error replies (the order handlers) answer
  `Refuse(status, message, detail)`.

Token verification, token signing and password hashing and comparison are
function parameters. The clock is a `nowMillis` argument.

The model follows the code where it differs from what a reader of the
handlers might expect:
- `makecart` creates one line per requested element. A listing requested
  twice gives two lines, not one line per distinct listing.
- A barbers listing is not refused whatever else is requested. It is refused
  with 403 only when no earlier line names a missing listing. Otherwise the
  earlier 404 wins.
- The listing schema declares neither `category` nor `shop_name`. So a
  listing built from the schema is never refused as barbers, and its lines
  carry no `product_name`.

## Model

| member | source | states |
|---|---|---|
| JsErrors.Raise | controllers/cart.controller.js:13 | `Object.assign(new Error(m), { statusCode })` is an `Error` with message m carrying that status |
| JsErrors.RuntimeError | controllers/cart.controller.js:172 | an error raised by the runtime (a ReferenceError, a TypeError) has no status code |
| JsErrors.ToText | controllers/cart.controller.js:52 | `${error}` is the name alone for an empty message, the message alone for an empty name, otherwise exactly the name followed by ": " and the message |
| JsErrors.Rewrap | controllers/cart.controller.js:51-55 | a catch block re-throws an `Error` whose message is `${error}`; a truthy status is kept; the variant with a 500 fallback (updateCart, getOneCart) turns a missing status into 500, the plain variant copies it |
| JsStrings.StartsWith | middleware/authmiddleware.js:8 | `startsWith(prefix)` holds if and only if the string is the prefix followed by the rest of the string |
| JsStrings.StartsWithConcat | middleware/authmiddleware.js:8 | every string that begins with the prefix passes the test |
| JsStrings.Split | middleware/authmiddleware.js:11 | `split(" ")` yields at least one field and no field contains the separator |
| JsStrings.JoinSplit | middleware/authmiddleware.js:11 | joining the fields of a split with the separator gives back the string |
| JsStrings.SplitWhole | middleware/authmiddleware.js:11 | a string without the separator splits into itself alone |
| JsStrings.SplitField | middleware/authmiddleware.js:11 | splitting a separator-free field, the separator and a rest gives that field followed by the rest's fields |
| JsStrings.SplitJoin | middleware/authmiddleware.js:11 | splitting the join of separator-free fields gives back those fields |
| ErrorMiddleware.SelectStatusAsWritten | middleware/errormiddleware.js:4-9 | a truthy `err.statusCode` is used, else a truthy `res.statusCode`, else 500 |
| ErrorMiddleware.StatusAsWrittenAnswersSuccess | middleware/errormiddleware.js:5-6 | an error without a status reaching a response that still holds Express's default 200 is answered with 200 |
| ErrorMiddleware.SelectStatus | middleware/errormiddleware.js:4-9 | corrected selection: the error's truthy status as-is; otherwise never 200, and 500 when the response status is unset or the default |
| ErrorMiddleware.SelectStatusDiffersOnlyOnDefault | middleware/errormiddleware.js:5-9 | the corrected and as-written selections differ if and only if the error has no status and the response holds the default 200 |
| ErrorMiddleware.NormaliseMessage | middleware/errormiddleware.js:10-16 | a non-empty message loses exactly 0 or 7 leading characters; an empty one becomes "Server Error" under NODE_ENV "Production", else "Something went wrong" |
| ErrorMiddleware.PrefixRoundTrip | middleware/errormiddleware.js:10-12 | normalising "Error: " + m gives m, for every m |
| ErrorMiddleware.StripsOnce | middleware/errormiddleware.js:11-12 | "Error: Error: m" normalises to "Error: m": one prefix only |
| ErrorMiddleware.UnprefixedPassesThrough | middleware/errormiddleware.js:13 | a non-empty message without the prefix is unchanged |
| ErrorMiddleware.Handle | middleware/errormiddleware.js:3-20 | as written: a truthy `err.statusCode` is used, else a truthy `res.statusCode`, else 500; the reply `{ Message }` is the normalised message |
| ErrorMiddleware.HandleIntended | middleware/errormiddleware.js:3-20 | corrected handler: a truthy `err.statusCode` is used; an error without one is never answered with Express's default 200; same message as `Handle` |
| ErrorMiddleware.StatuslessErrorAnswersSuccess | middleware/errormiddleware.js:5-6 | an error without a status, re-thrown by a catch without a 500 fallback, is answered 200 as written and 500 by the corrected handler, with the same message |
| ErrorMiddleware.RaisedErrorReachesClient | controllers/cart.controller.js:51-55 | an error raised with message m and a status, then re-thrown by either catch, is answered with exactly that status and m, by the as-written and the corrected handler alike |
| ErrorMiddleware.RuntimeErrorReachesClient | controllers/cart.controller.js:155-159 | a runtime error's reply message keeps its name; after a catch with a 500 fallback its status is 500 |
| AuthMiddleware.BearerToken | middleware/authmiddleware.js:11 | a second space-separated field exists if and only if the header contains a space |
| AuthMiddleware.SplitHasSecondFieldIffSpace | middleware/authmiddleware.js:11 | `split(" ")` has two or more fields if and only if there is a space |
| AuthMiddleware.Protect | middleware/authmiddleware.js:5-45 | the request is admitted if and only if the token decodes and its age in whole seconds is at most 48 hours; 401 if and only if the token decodes and its age in whole seconds exceeds 48 hours; an undecodable header gives 403; no other refusal exists; on success `req.auth` is the decoded account without its password, or null when it no longer exists |
| AuthMiddleware.NoBearerPrefixIsForbidden | middleware/authmiddleware.js:8 | a missing header, or one not starting with the case-sensitive "Bearer", gives 403 "Not authorized" |
| AuthMiddleware.TokenFollowsBearer | middleware/authmiddleware.js:11 | for "Bearer t" with t free of spaces, the token is t |
| AuthMiddleware.PrefixNeedsNoSpace | middleware/authmiddleware.js:8-11 | "BearerX t" passes the prefix test and yields token t |
| AuthMiddleware.NoTokenIsForbidden | middleware/authmiddleware.js:32-39 | a header with no space has no token and gives 403, not 401 |
| AuthMiddleware.SessionAgeBoundary | middleware/authmiddleware.js:17-24 | an age of exactly 172800 seconds is admitted and one second more gives 401 "Session expired" |
| AuthMiddleware.UnverifiedTokenIsForbidden | middleware/authmiddleware.js:36-38 | a token that fails verification gives 403, never 401 |
| UserSchema.WithoutPassword | middleware/authmiddleware.js:29 | `select("-password")` keeps the id and every field other than the password |
| UserSchema.PublicViewIgnoresPassword | controllers/user.controller.js:70-72 | the public view does not depend on the password: accounts differing only in their hash look the same |
| UserSchema.NewAccount | models/users/users.js:30-36 | role defaults to "USER" (which is not "admin") and is otherwise as given; active defaults to false |
| UserSchema.InsertKeepsKeysUnique | models/users/users.js:16-25 | inserting an account whose email and userName are unused keeps both unique indexes |
| CoffeeSchema.NewListing | models/coffee/coffee.js:40-47 | price defaults to 0 and availability to false; no category or display name is set |
| CoffeeSchema.SchemaListingIsNeverBarbers | models/coffee/coffee.js:3-48 | a listing built from the schema is never in the barbers category |
| CartSchema.NewLine | models/carts/carts.js:26-30 | quantity and amount both default to 1 |
| CartSchema.NewCart | models/carts/carts.js:33-40 | totalAmount defaults to 0 and paid to false |
| CartSchema.SumAmounts | controllers/cart.controller.js:110-113 | the `reduce` over the lines' amounts is non-negative when every amount is, and a single line's amount for one line |
| CartSchema.SumAmountsUpdate | controllers/cart.controller.js:97-98 | changing one line changes the sum of amounts by the difference of the two amounts |
| CartSchema.SumAmountsAppend | controllers/cart.controller.js:100-106 | appending a line adds its amount to the sum |
| CartSchema.OwnedBy | controllers/orders.controller.js:31 | `Cart.find({ user })` holds exactly the carts whose owner is the user, unchanged |
| CartPricing.Rejection | controllers/cart.controller.js:24-29 | a missing listing is refused with 404, an existing (barbers) one with 403 |
| CartPricing.PricedLine | controllers/cart.controller.js:30-34 | a line's amount is quantity × the listing's price |
| CartPricing.Price | controllers/cart.controller.js:21-35 | a successful pricing has exactly one line per request; a refusal carries status 403 or 404 |
| CartPricing.PriceLast | controllers/cart.controller.js:21-34 | one more request either appends its priced line or ends the pricing with its refusal |
| CartPricing.PriceSucceedsIff | controllers/cart.controller.js:21-29 | pricing succeeds if and only if every line's listing exists and is not barbers |
| CartPricing.PriceLines | controllers/cart.controller.js:30-34 | a successful pricing has one line per request, in order, line i being request i priced at quantity × price |
| CartPricing.PriceTotal | controllers/cart.controller.js:30-31 | the line amounts of a successful pricing sum to quantity × price over all requests |
| CartPricing.PriceSpec | controllers/cart.controller.js:21-35 | pricing succeeds if and only if every line's listing exists and is not barbers; then line i is request i priced at quantity × price, and the line amounts sum to the requests' value |
| CartPricing.RejectionPersists | controllers/cart.controller.js:21-29 | once a prefix of the request is refused, the whole request is refused with the same error |
| CartPricing.FirstRejectionWins | controllers/cart.controller.js:21-29 | the first refused line decides the error, whatever follows it |
| CartPricing.PriceItems | controllers/cart.controller.js:17-35 | the loop's lines equal the specification `Price`, and its running total is the sum of the line amounts |
| CartMerge.FindIndex | controllers/cart.controller.js:92-94 | `findIndex` gives -1 if and only if no line holds the product, else the first line that does |
| CartMerge.MergeOne | controllers/cart.controller.js:92-107 | one merge keeps the line count for a held product and adds one line for a new product; the product is then held |
| CartMerge.MergeRepeated | controllers/cart.controller.js:96-98 | a held product's first line gains q in quantity and q × price in amount; the line count and every other line are unchanged |
| CartMerge.MergeNew | controllers/cart.controller.js:99-106 | a new product appends exactly one line with amount q × price |
| CartMerge.MergeOneProducts | controllers/cart.controller.js:92-107 | one merge adds exactly the requested product to the cart's products |
| CartMerge.MergeOneFacts | controllers/cart.controller.js:92-107 | one merge adds q × price to the sum, adds the product to the product set, keeps products unique and keeps earlier lines' products |
| CartMerge.MergeAll | controllers/cart.controller.js:84-108 | a failed merge carries 404 "Shop not found"; a successful one keeps at least the old lines and adds at most one per request |
| CartMerge.MergeAllLast | controllers/cart.controller.js:84-107 | one more request either merges into the lines so far or fails with 404 "Shop not found" |
| CartMerge.MergeAllSucceedsIff | controllers/cart.controller.js:84-90 | the merge succeeds if and only if every requested listing exists; otherwise 404 "Shop not found" |
| CartMerge.MergeAllTotal | controllers/cart.controller.js:84-113 | after a merge the sum of amounts is the old sum plus quantity × price over all requests |
| CartMerge.MergeAllProducts | controllers/cart.controller.js:84-108 | merged products are the old ones plus the requested ones |
| CartMerge.MergeAllUnique | controllers/cart.controller.js:92-106 | products stay unique through a merge, duplicates within one request included |
| CartMerge.MergeAllKeepsLines | controllers/cart.controller.js:96-106 | the lines the cart held stay in place with their product and name; lines are only updated or appended |
| CartMerge.MergeAllLinesValidate | controllers/cart.controller.js:96-106 | merged lines still pass the line validation when the old lines do and every new product's listing has a display name |
| CartMerge.MergeTwiceAddsQuantities | controllers/cart.controller.js:92-107 | adding the same product twice yields one line whose quantity grew by the sum of the two quantities |
| CartMerge.MergeTwiceHeld | controllers/cart.controller.js:96-98 | for a held product both requests add to the same line, whose quantity grows by both; the line count is unchanged |
| CartMerge.MergeTwiceNew | controllers/cart.controller.js:99-106 | for a new product the first request appends a line and the second adds to it |
| CartMerge.MergeLine | controllers/cart.controller.js:92-107 | the loop body, updating by index or pushing, equals one `MergeOne` |
| CartMerge.MergeItems | controllers/cart.controller.js:82-108 | the loop equals `MergeAll`; it succeeds if and only if every listing exists; the sum of amounts grows by the requests' value; products stay unique |
| Store.Database.InsertCart | controllers/cart.controller.js:37-42 | a validated cart owned by a registered account is stored under a fresh id; nothing else changes and the database invariant holds |
| Store.Database.SaveCart | controllers/cart.controller.js:115-117 | a validated cart replaces the stored document with that id; nothing else changes and the database invariant holds |
| CartController.CartValidationError | models/carts/carts.js:21-24 | a failed cart validation raises an error without a status code |
| CartController.DestructureError | controllers/cart.controller.js:11 | `const { id } = req.auth` on a null `req.auth` throws a TypeError without a status code |
| CartController.MakeCartWrite | controllers/cart.controller.js:9-56 | makecart only ever inserts a cart or fails, and it never replaces one; an inserted cart belongs to the caller, who exists |
| CartController.MakeCartChecksCallerFirst | controllers/cart.controller.js:11-16 | a null `req.auth` gives the destructuring TypeError, a falsy id 403 and an unknown account 404, whatever the items and listings |
| CartController.MakeCartPricesEveryLine | controllers/cart.controller.js:17-42 | a created cart is the caller's, unpaid, one line per request in order, each amount quantity × price, total = sum of amounts = value of the requests |
| CartController.MakeCartFirstRejectionWins | controllers/cart.controller.js:21-29 | the first missing listing gives 404 "No shops found", the first barbers listing 403, and nothing is created |
| CartController.MakeCartNeedsDisplayNames | controllers/cart.controller.js:33-37 | a line whose listing has no display name fails cart validation, so nothing is created |
| CartController.MakeCartInsertsIff | controllers/cart.controller.js:13-42 | for a known caller a cart is created if and only if the account has a user name and every requested listing exists, is not barbers and has a display name |
| CartController.MakeCart | controllers/cart.controller.js:9-56 | inserts exactly the decided cart under a fresh id and answers 201, or writes nothing and re-throws; preserves the database's invariant |
| CartController.FallbackLines | controllers/cart.controller.js:134-138 | the fallback lines carry product and quantity only; amount takes the default 1 and no name is set |
| CartController.UpdateCartWrite | controllers/cart.controller.js:58-160 | a save only ever targets the requested cart, which exists and is unpaid; nothing is written unless the caller exists |
| CartController.UpdateIgnoresOwner | controllers/cart.controller.js:58-117 | updateCart has no owner check: on an existing unpaid cart any registered caller gets the owner's write, though getOneCart refuses that caller the same cart |
| CartController.UpdateCartChecksItemsFirst | controllers/cart.controller.js:73-77 | items that are not an array give 400 whatever the carts hold |
| CartController.UpdateCartMissingShop | controllers/cart.controller.js:87-90 | on an unpaid cart a missing listing gives 404 "Shop not found" and no write |
| CartController.UpdateCartMergeTotals | controllers/cart.controller.js:110-117 | a saved cart keeps owner and name; its total is the sum of all amounts, the old sum plus the requests' value; products are the old plus the requested ones and stay unique |
| CartController.UpdateCartSaves | controllers/cart.controller.js:84-117 | on an existing unpaid valid cart the merge is saved whenever every listing exists and each product is held already or has a listing with a display name |
| CartController.UpdateCartFallback | controllers/cart.controller.js:130-149 | a missing or paid cart is never touched: with no items an empty unpaid cart with total 0 is inserted; with items validation fails and nothing is written |
| CartController.UpdateCart | controllers/cart.controller.js:58-160 | saves (200) or inserts (201) exactly the decided cart, or writes nothing and re-throws with a 500 fallback; preserves the database's invariant |
| CartController.GetOneCart | controllers/cart.controller.js:202-247 | the cart is returned if and only if the caller exists and owns it; a null `req.auth` gives 500, an unknown caller 404, anyone else 401 |
| CartController.GetAllCartsForUser | controllers/cart.controller.js:167-198 | exactly the caller's carts, paid or not, if and only if the caller exists; a null `req.auth` or an unknown caller gets an error with no status |
| CartController.NullAuthAnswers | controllers/cart.controller.js:11 | with a null `req.auth` all four cart handlers throw the destructuring TypeError and write nothing; after the plain re-throw the reply is 200, after the one with a 500 fallback it is 500 |
| CartController.FailedValidationAnswersSuccess | controllers/cart.controller.js:37-55 | a cart failing validation in makecart is answered 200 with the whole validation error text as written, and 500 by the corrected handler |
| OrdersController.GetUserOrder | controllers/orders.controller.js:10-17 | an order is returned if and only if both its id and its owner match, otherwise 404 "Order not found" |
| OrdersController.GetAllUserOrders | controllers/orders.controller.js:31-36 | exactly the carts whose owner is the requester, with 200 |
| OrdersController.GetAllOrdersAsWritten | controllers/orders.controller.js:44-65 | every call ends in the catch block's 500 |
| OrdersController.GetAllOrders | controllers/orders.controller.js:48-59 | corrected: all carts with 200 if and only if the requester is an "admin"; any other account gets 403; a missing account 500 |
| OrdersController.AdminIsRefusedAsWritten | controllers/orders.controller.js:47-51 | an administrator is refused as written and served by the corrected handler |
| OrdersController.SetPaid | controllers/orders.controller.js:78-82 | the one cart's paid flag becomes exactly the requested value; no other field or cart changes |
| OrdersController.PaidFlagReverts | controllers/orders.controller.js:78-82 | there is no transition guard: paid can go from true back to false, and restoring the flag restores the collection |
| OrdersController.PaidIsVisibleToOwner | controllers/orders.controller.js:78-88 | after a cart is marked paid, its owner's `getOneCart` shows it paid |
| OrdersController.UpdateOrderStatus | controllers/orders.controller.js:67-94 | a missing account gives 500 and a non-admin 403, both before any write; an unknown order gives 404; otherwise exactly `SetPaid` is written and the updated cart returned with 200 |
| UserController.RegisterCheck | controllers/user.controller.js:171-195 | registration passes its checks if and only if the six required fields are non-empty and neither email nor userName is taken; empty fields give 400, a taken key 409 |
| UserController.EmailCheckedFirst | controllers/user.controller.js:184-195 | a taken email is reported ("User already exists") before a taken userName |
| UserController.AccountFor | controllers/user.controller.js:196-209 | the stored password is the hash of the request's password; the role is the requested one, "USER" when absent; the account starts inactive |
| UserController.Register | controllers/user.controller.js:156-224 | a failed check or validation writes nothing; otherwise exactly one account is inserted under a fresh id and the reply then fails on `userWithoutPassword`; the unique indexes are preserved |
| UserController.AccountWithEmail | controllers/user.controller.js:59 | the lookup finds the account with that email |
| UserController.Login | controllers/user.controller.js:50-90 | an empty email or password gives 400; success (200) if and only if an account has that email and the password matches its hash, returning that account without its password and a token for its id; every other failure is 401 "Invalid credentials" |
| UserController.LoginFailuresIndistinguishable | controllers/user.controller.js:61-84 | an unknown email and a wrong password give the same 401 outcome |

## Left out

- Token signing and verification (`jwt.sign`, `jwt.verify`) are function parameters. The 12-hour and 48-hour expiry settings given to `jwt.sign` are not modelled. Only the 48-hour age test of `protect` is.
- Password hashing and comparison (`bcrypt.genSalt`, `bcrypt.hash`, `bcrypt.compare`) are function parameters.
- The `Authorization` header that successful handlers add to their replies is not modelled.
- Decoding a string `items` with `JSON.parse` is not modelled. Items arrive decoded, either as a sequence of `{ shop_id, quantity }` or as a non-array.
- `getLocation` is an outbound HTTP call and is left out.
- Logging (`logger.info`, `console.log`) is left out. `logger` is never declared in controllers/cart.controller.js, so lines 127, 151 and 239 throw a ReferenceError just after the reply is sent. This happens on both write paths of updateCart and in getOneCart. The catch re-throws it with 500, and the error handler's second reply fails because the headers were already sent. The model's 200 and 201 outcomes describe the write and the first reply; that later throw is not modelled.
- UserController.Register: `res.status(202)` at controllers/user.controller.js:212-213 runs before `userWithoutPassword` is read. So the ReferenceError reaches the error handler with the response status 202. Both `Handle` and `HandleIntended` then answer 202 "ReferenceError: userWithoutPassword is not defined". The model's `Thrown` outcome does not carry that 202.
- `logout_user` is left out; it only writes a fixed reply.
- controllers/coffee.controller.js is not part of this model. It does not parse, and it exports nothing.
- Routing (`server.js`, `routes/*.js`) is left out. This includes the route parameter names that do not match the handlers' `req.params`. The handlers take the parameter they read.
- Prices, quantities and amounts are unbounded integers. JavaScript's floating-point `Number` arithmetic is not modelled.
- Each handler runs to completion on its own. The race between `findById` and `save` in `updateCart` is not modelled.
- Mongoose `populate` is not modelled. Lines keep the listing's id and carts keep the owner's id. The cart schema's `ref: "SHOP"` (models/carts/carts.js:18) and the populate option `model: "COFFEE"` (controllers/cart.controller.js:177, 217) name models that are never registered; models/coffee/coffee.js:56 registers "coffee". If Mongoose then raises a missing-schema error, the read handlers fail on carts that have lines. The model does not capture this.
- The 403 branch of getAllcartsForuser (controllers/cart.controller.js:171-174) cannot be reached. The caller's id is the id of the account found for it, and a missing account throws a TypeError first. The model has no such branch.
- `for (item of items)` (controllers/cart.controller.js:21) assigns an undeclared global `item`. The model treats it as a loop variable.
- The error texts of runtime and validation errors are stand-ins. Mongoose's `ValidationError` lists the failing paths in its message; `CartValidationError` and `UserValidationError` do not. The proofs depend only on these errors having no status code and, for the reply text, on their text not starting with "Error: "; Mongoose's own texts share both traits.
- Mongoose cast errors on malformed ids are not modelled. Ids are naturals.
- `req.auth` is modelled as null, or as an account carrying an id that may be falsy. With a null `req.auth`, `const { id } = req.auth` throws a TypeError without a status in all four cart handlers (controllers/cart.controller.js:11, 60, 169, 205). After the plain re-throw of makecart and getAllcartsForuser the reply is 200. After the 500 fallback of updateCart and getOneCart it is 500. A falsy id gives 403 in makecart and is an unknown caller in the other three.
- CartController.GetOneCart: `foundCart.user` is populated with the owner's document at controllers/cart.controller.js:219-223. Its `toString()` is then not the id, so as written even the owner gets 401. The model compares the stored owner id, and OrdersController.PaidIsVisibleToOwner relies on that, because `populate` is not modelled.
- AuthMiddleware.SessionAgeBoundary: the token library also rejects a token after its own `exp` (12 hours at controllers/cart.controller.js:277, 48 hours at controllers/user.controller.js:232). A token signed by a cart handler is therefore refused with 403 long before 172800 seconds. The model admits any decoded token up to that age, since verification is a parameter.
- Each listing's images are not copied onto cart lines. The `image` path is not in the cart schema, so Mongoose drops it.
- `updateOrderStatus` with no `paid` in the body is not modelled. The model always writes a boolean.
- Timestamps (`createdAt`, `updatedAt`) are left out.

## Findings

| source | as written | input that shows it | evidently intended | confidence | as-written member | corrected member |
|---|---|---|---|---|---|---|
| middleware/errormiddleware.js:5-6 | an error without a `statusCode` takes `res.statusCode`, which Express leaves at 200 when no handler set it | a cart that fails schema validation in `makecart`: the re-thrown error has no status, and the reply is 200 with the error message | an error without a status is never answered with Express's default 200, and gets 500 when the response still holds that default | not executed; high | CartController.FailedValidationAnswersSuccess | ErrorMiddleware.HandleIntended |
| controllers/orders.controller.js:47 | `users.findById` names an undeclared `users` (the import is `USERS`); line 51 then reads the unset `req.user` | any call, by an administrator included: the reply is 500 "Error retrieving all orders" | an administrator receives every cart with 200, and other accounts receive 403 | not executed; high | OrdersController.GetAllOrdersAsWritten | OrdersController.GetAllOrders |

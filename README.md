# Order lifecycle core of fast-food-orders, in Dafny

This project models the order lifecycle of a fast-food ordering backend built on AWS Lambda:

- the order service, which creates orders, merges updates, sets statuses and delegates get, delete and list to a repository;
- the create-order handler: body guard, creation through the service, then a payment request sent to a queue;
- the update-order handler: id/body guard, the controller request built from the path and body, and the update through the service;
- the create-product-category controller: trimming, length validation, one service call, and a service `error` field turned into a throw.

Layout, one module per file:

- `wrappers.dfy` (`Wrappers`): `Option`, `Result`, `Outcome`.
- `js_values.dfy` (`JsValues`): the JavaScript runtime notions the handlers rely on. A thrown error is a record of `name`, `message` and zod `errors`. Also defined here: truthiness of optional numbers and strings, `Number(text)` for integer texts and `String(n)`.
- `order_entity.dfy` (`OrderEntity`): `Order`, `OrderStatus` and the `RECEIVED` status.
- `order_store.dfy` (`OrderStore`): the repository as abstract state.
  - `Table` is a map from id to order plus the ids in insertion order, which is the order `list` pages through.
  - The functions on `Table` give the meaning of each repository operation.
  - The class `OrderRepository` holds the map and the id sequence as fields. Its methods reassign those fields. A ghost log `calls` records every write request the repository receives.
- `order_service.dfy` (`OrderDomain`): the service.
  - `CreateOrderSpec`, `UpdateOrderSpec` and `UpdateStatusSpec` state what each operation returns, what the table becomes, and which repository writes are made.
  - The class `OrderService` runs these operations against a repository. Each method is proved equal to its specification function.
- `lambda_http.dfy` (`LambdaHttp`): the event body as an abstract parse result, the response, and the error-to-response mapping that both handlers share.
- `create_order_handler.dfy` (`CreateOrderHandler`): `CreateStep`, one invocation as a function of the store, the queue so far and the inputs. Also the queue class `PaymentQueue` and the handler method `Handle`, proved equal to `CreateStep`.
- `update_order_handler.dfy` (`UpdateOrderHandler`): `UpdateStep` and the handler method `Handle`, proved equal to it.
- `product_category_create.dfy` (`ProductCategoryCreate`): `trim`, the schema's length checks, and `handle`.

Inputs that the TypeScript code reads from its environment are parameters:

- the clock value `Date.now()`, used as the new order's id (`now`);
- the environment variable `QUEUE_URL` (`queueUrl`);
- whether the queue accepts the message (`delivered`);
- the order controllers' schema validation (`check`), whose implementation is not part of this model. It is a function from the object the handler passes to the controller to either the parsed arguments or the thrown error.
- the product-category service (`service`), a function from the call's arguments to what the call resolves to or throws.

Three behaviours of the code that the model keeps as they are:

- Updating an order that does not exist is reported as 500 "Internal server error", not as a 4xx. The service's "Order not found" is a plain `Error`.
- The id of a new order is the caller-supplied clock value. A duplicate id is refused by the store, as a unique key would refuse it. Nothing in the code makes ids unique.
- The message attribute meant to bind a payment message to its order does not carry the order id (see Findings).

## Model

| member | source | states |
|---|---|---|
| `JsValues.PlainError` | src/order/domain/service.ts:19 | `new Error(message)`, as thrown at service.ts:19 and 32 and controller.ts:24: a thrown error named `Error`, with that message and no issues |
| `JsValues.ZodError` | src/product_category/useCases/create/controller.ts:16 | the error a schema's `parse` throws on invalid input: named `ZodError` and carrying its issues in `errors`, which is what both order handlers' catch blocks test for (create handler.ts:64) |
| `JsValues.TruthyNumber` | src/order/domain/service.ts:23 | `if (userId)`: a missing userId and 0 are falsy, every other number is truthy |
| `JsValues.TruthyText` | src/order/useCases/create/handler.ts:32 | `!sendToPaymentQueueUrl`, also the path-id test at update handler.ts:12 and `productCategory.error` at controller.ts:23: a missing and an empty string are falsy, every other string is truthy |
| `JsValues.ToNumber` | src/order/useCases/update/handler.ts:28 | `Number(pathId)` is a number exactly when the text is an optional minus sign followed by decimal digits, otherwise NaN; the number is the digits' decimal value, negated after the minus sign |
| `JsValues.DigitsValueLeadingZero` | src/order/useCases/update/handler.ts:28 | a leading zero digit does not change a digit string's value |
| `JsValues.NumberOfPaddedText` | src/order/useCases/update/handler.ts:28 | `Number` ignores leading zeros, with or without a minus sign: `"007"` reads as 7 and `"-05"` as -5 |
| `JsValues.DecimalText` | src/order/useCases/update/handler.ts:28 | the decimal text of a natural number is a non-empty digit string without leading zeros |
| `JsValues.NumberOfDecimalText` | src/order/useCases/update/handler.ts:28 | `Number` reads back the decimal text of every natural number |
| `JsValues.NumberOfNegativeText` | src/order/useCases/update/handler.ts:28 | `Number` reads back every negated decimal text |
| `JsValues.NumberOfIntText` | src/order/useCases/create/handler.ts:48 | `Number(String(n)) == n` for every integer of the model's unbounded arithmetic, so an id rendered as text identifies the id (in JavaScript this holds for the integers below 2^53, which covers `Date.now()` ids; see Left out) |
| `OrderStore.Find` | src/order/domain/service.ts:12-14 | repository `findById`: finds a record exactly when the id is stored, and that record carries the id |
| `OrderStore.Insert` | src/order/domain/service.ts:9 | repository `create` of a fresh id: keeps the store well formed, adds exactly that key, leaves every other row alone, appends the id to the listing order |
| `OrderStore.Replace` | src/order/domain/service.ts:26 | repository `update`: same keys and same listing order, the row under the order's id is the new order, every other row unchanged |
| `OrderStore.Without` | src/order/domain/service.ts:38-40 | dropping an id from the listing order keeps exactly the other ids, keeps them distinct and never lengthens the list |
| `OrderStore.WithoutAt` | src/order/domain/service.ts:38-40 | on a list without repeats, dropping an id removes exactly its one position and keeps the rest in order |
| `OrderStore.Remove` | src/order/domain/service.ts:38-40 | repository `delete`: removes exactly that key, no other row changes, the listing order loses exactly the id's one position and keeps the rest in order, and deleting an absent id changes nothing |
| `OrderStore.RemoveAt` | src/order/domain/service.ts:38-40 | an id listed once is dropped by cutting it out at its position |
| `OrderStore.Page` | src/order/domain/service.ts:42-44 | repository `list(limit, offset)`: returns min(limit, stored − offset) orders (none past the end), the i-th being the order at listing position offset + i |
| `OrderStore.OrderRepository.Create` | src/order/domain/service.ts:9 | records one create request; a duplicate id fails with nothing stored; otherwise the store becomes `Insert` of the order |
| `OrderStore.OrderRepository.FindById` | src/order/domain/service.ts:17 | returns the stored order for the id, or nothing |
| `OrderStore.OrderRepository.Update` | src/order/domain/service.ts:26 | records one update request; an absent id fails and changes nothing; otherwise the store becomes `Replace` of the order |
| `OrderStore.OrderRepository.Delete` | src/order/domain/service.ts:39 | records one delete request; returns whether the id was stored; the store becomes `Remove` of the id |
| `OrderStore.OrderRepository.List` | src/order/domain/service.ts:43 | returns `Page` of the current store |
| `OrderDomain.NewOrder` | src/order/domain/service.ts:8 | the order built by `createOrder`: the clock value as id, status RECEIVED, no payment method, and the given items, total and userId |
| `OrderDomain.Merge` | src/order/domain/service.ts:21-25 | items and total are replaced; userId only by a truthy one, otherwise kept; id, status and payment method kept |
| `OrderDomain.CreateOrderSpec` | src/order/domain/service.ts:7-10 | exactly one repository create. On success the order has the clock value as id, status RECEIVED, and the given items, total and userId, and is stored with nothing else changed. Fails, with the store unchanged, exactly when the id is taken |
| `OrderDomain.UpdateOrderSpec` | src/order/domain/service.ts:16-27 | fails with "Order not found" exactly when the id is absent; then the store is unchanged and no update is sent. Otherwise items and total are the given ones. userId is replaced only when the given one is truthy (defined, non-zero). id, status and paymentMethod are kept. Exactly that row is replaced by a single update |
| `OrderDomain.UpdateStatusSpec` | src/order/domain/service.ts:29-36 | fails with "Order not found" exactly when the id is absent, with no write. Otherwise only the status changes, to any value whatever the current one; one update is sent and no other row changes |
| `OrderDomain.UpdateWithSameValuesKeepsTable` | src/order/domain/service.ts:21-25 | an update with the stored items and total and a falsy userId leaves the store as it was |
| `OrderDomain.UpdatesCommute` | src/order/domain/service.ts:16-36 | a status update and a field update of the same order commute: each touches only its own fields |
| `OrderDomain.ListFirstTwoOfFive` | src/order/domain/service.ts:42-44 | listing 2 from offset 0 of a store of 5 gives the first two stored orders, in order |
| `OrderDomain.OrderService.constructor` | src/order/domain/service.ts:5 | the service works over the repository it is given |
| `OrderDomain.OrderService.CreateOrder` | src/order/domain/service.ts:7-10 | result, new store and repository writes are those of `CreateOrderSpec` |
| `OrderDomain.OrderService.GetOrderById` | src/order/domain/service.ts:12-14 | returns exactly what the repository's `findById` returns, and changes nothing |
| `OrderDomain.OrderService.UpdateOrder` | src/order/domain/service.ts:16-27 | loads, merges in place and writes back; result, new store and writes are those of `UpdateOrderSpec` |
| `OrderDomain.OrderService.UpdateOrderStatus` | src/order/domain/service.ts:29-36 | result, new store and writes are those of `UpdateStatusSpec` |
| `OrderDomain.OrderService.DeleteOrder` | src/order/domain/service.ts:38-40 | returns what the repository's `delete` returns; the store and the write log change only as that `delete` changes them |
| `OrderDomain.OrderService.ListOrders` | src/order/domain/service.ts:42-44 | returns exactly the repository's page and changes nothing |
| `LambdaHttp.BodyFalsy` | src/order/useCases/create/handler.ts:14 | `!event.body`, also at update handler.ts:12: an absent body and the empty string are falsy |
| `LambdaHttp.KeyCount` | src/order/useCases/create/handler.ts:14 | `Object.keys(body).length` is 0 exactly when none of the three fields is present and there is no other key; a key present with a mistyped or `null` value counts |
| `LambdaHttp.ErrorResponse` | src/order/useCases/create/handler.ts:61-79 | the catch block, the same in both handlers (update at lines 43-61): an error named `ZodError` gives 400 "Validation error" with its `errors` as details, exactly in that case; any other error gives a bare 500 "Internal server error" |
| `CreateOrderHandler.PaymentRequestOf` | src/order/useCases/create/handler.ts:35-40 | the payment request carries the order's id, payment method, total as amount, and items |
| `CreateOrderHandler.OrderIdAttributeAsWritten` | src/order/useCases/create/handler.ts:48 | the attribute as written does not read as a number, so it carries no order id |
| `CreateOrderHandler.OrderIdAttribute` | src/order/useCases/create/handler.ts:45-50 | the corrected `OrderId` attribute is text that `Number` reads back as the order id |
| `CreateOrderHandler.OrderIdAttributeDistinguishes` | src/order/useCases/create/handler.ts:45-50 | the corrected attribute of two messages is equal exactly when their order ids are |
| `CreateOrderHandler.AsWrittenAttributeLosesOrderId` | src/order/useCases/create/handler.ts:48 | `paymentRequest.toString()` gives two requests for different orders the same attribute |
| `CreateOrderHandler.DispatchOf` | src/order/useCases/create/handler.ts:35-51 | the message the handler sends goes to `QUEUE_URL`; its payment request has orderId = order id, paymentMethod = the order's, amount = total and items = items; its `OrderId` attribute is `"[object Object]"`, as written |
| `CreateOrderHandler.IntendedDispatchOf` | src/order/useCases/create/handler.ts:42-51 | the corrected message: the same queue and payment request, with an attribute that `Number` reads back as the order id |
| `CreateOrderHandler.DispatchAttributes` | src/order/useCases/create/handler.ts:45-50 | the messages sent for any two orders carry equal attributes; the corrected attributes are equal exactly when the order ids are |
| `CreateOrderHandler.BodyRejected` | src/order/useCases/create/handler.ts:14-20 | the guard refuses exactly a missing or empty body and the object `{}` |
| `CreateOrderHandler.CreateStep` | src/order/useCases/create/handler.ts:9-81 | one create request; the clauses are listed below the table |
| `CreateOrderHandler.CreateScenario` | tests/unit/order/useCases/create/handler.test.ts:52-90 | the tests' successful create: 201 with the stored order (status received, total 50, userId 1), one repository create and one payment request {orderId, amount 50, items} to the queue |
| `CreateOrderHandler.DualWriteGap` | src/order/useCases/create/handler.ts:28-51 | with a valid body and a fresh id, an unset `QUEUE_URL` or a refused send still leaves the new order stored, while the response is 500 and nothing is published |
| `CreateOrderHandler.NoPublishWithoutOrder` | src/order/useCases/create/handler.ts:28-42 | when the store refuses the create, nothing is stored, nothing is published and the response is not 201 |
| `CreateOrderHandler.PaymentQueue.Send` | src/order/useCases/create/handler.ts:42-51 | a delivered message is appended to what the queue has received; a refused one throws and the queue is unchanged |
| `CreateOrderHandler.Handle` | src/order/useCases/create/handler.ts:9-81 | response, new store, repository writes and messages sent are exactly those of `CreateStep` |
| `UpdateOrderHandler.ControllerRequest` | src/order/useCases/update/handler.ts:27-32 | the controller's id is `Number(pathId)`, a number exactly when the path text is an optional minus followed by digits; items, total and userId are the body's, present, mistyped or missing as they came |
| `UpdateOrderHandler.ControllerRequestOfIdText` | src/order/useCases/update/handler.ts:20-32 | for the text of any integer, negative or zero-padded, the controller receives that integer as `id` and exactly the body's items, total and userId; other body keys make no difference |
| `UpdateOrderHandler.MissingInput` | src/order/useCases/update/handler.ts:12 | the guard fires exactly on a missing or empty path id or a missing or empty body |
| `UpdateOrderHandler.Controlled` | src/order/useCases/update/handler.ts:27-61 | a validation error goes to the error mapping with no write; a validated absent id is a 500 with no write; a validated stored id gives 200 with the merged order, which replaces its row by one update |
| `UpdateOrderHandler.UpdateStep` | src/order/useCases/update/handler.ts:8-63 | one update request; the clauses are listed below the table |
| `UpdateOrderHandler.EmptyObjectReachesController` | src/order/useCases/update/handler.ts:12-32 | a body of `{}` passes the guard, unlike in create, and can end in 200 |
| `UpdateOrderHandler.MissingOrderIsServerError` | src/order/useCases/update/handler.ts:57-61 | a validated update of an absent id answers 500 "Internal server error" and writes nothing |
| `UpdateOrderHandler.Handle` | src/order/useCases/update/handler.ts:8-63 | response, new store and repository writes are exactly those of `UpdateStep`; it has no queue, so it publishes nothing |
| `ProductCategoryCreate.IsWhitespace` | src/product_category/useCases/create/controller.ts:5-6 | the characters `trim()` removes: ECMAScript WhiteSpace (tab, vertical tab, form feed, space, no-break space, zero-width no-break space and the Unicode space separators) and LineTerminator (LF, CR, U+2028, U+2029) |
| `ProductCategoryCreate.Trim` | src/product_category/useCases/create/controller.ts:5-6 | `trim()` never lengthens its input and leaves no whitespace at either end |
| `ProductCategoryCreate.TrimStart` | src/product_category/useCases/create/controller.ts:5-6 | the result is a suffix of the input, everything cut is whitespace, and it does not start with whitespace |
| `ProductCategoryCreate.TrimEnd` | src/product_category/useCases/create/controller.ts:5-6 | the result is a prefix of the input, everything cut is whitespace, and it does not end with whitespace |
| `ProductCategoryCreate.TrimShape` | src/product_category/useCases/create/controller.ts:5-6 | `trim()` keeps a slice of the input whose ends are not whitespace, and everything outside that slice is whitespace |
| `ProductCategoryCreate.TrimKeeps` | src/product_category/useCases/create/controller.ts:5-6 | a string whose ends are not whitespace is its own trim |
| `ProductCategoryCreate.TrimIdempotent` | src/product_category/useCases/create/controller.ts:5-6 | trimming twice is trimming once |
| `ProductCategoryCreate.TrimBlank` | src/product_category/useCases/create/controller.ts:5-6 | a string of whitespace trims to the empty string |
| `ProductCategoryCreate.LengthIssues` | src/product_category/useCases/create/controller.ts:5-6 | a field has no issue exactly when its length is within bounds, otherwise one issue naming the field |
| `ProductCategoryCreate.CheckLengths` | src/product_category/useCases/create/controller.ts:5-6 | on trimmed fields: accepted exactly when name is 1..100 and description is 5..500 characters. A refusal is a ZodError with one or two issues. Each issue names a field that is out of bounds, each field out of bounds has exactly one issue, so there are as many issues as failing fields, and the name's comes first |
| `ProductCategoryCreate.Parse` | src/product_category/useCases/create/controller.ts:4-7 | the schema accepts exactly when the trimmed name is 1..100 and the trimmed description 5..500 characters, and it yields the trimmed values. A refusal is a ZodError with exactly one issue for each trimmed field out of bounds and no other (as many issues as failing fields), the name's first |
| `ProductCategoryCreate.BlankNameRefused` | src/product_category/useCases/create/controller.ts:5 | a name made only of whitespace is refused, whatever its untrimmed length |
| `ProductCategoryCreate.ParseIdempotent` | src/product_category/useCases/create/controller.ts:4-7 | the schema accepts its own output unchanged |
| `ProductCategoryCreate.Handle` | src/product_category/useCases/create/controller.ts:14-31 | a validation error is thrown before any service call. Otherwise the service is called exactly once, with the trimmed name and description. A thrown error is rethrown unchanged. A truthy `error` field becomes a thrown `Error` with that message. Any other reply is returned unchanged |
| `ProductCategoryCreate.Relay` | src/product_category/useCases/create/controller.ts:18-29 | after validation: a validation error is thrown with no call. A validated request leads to exactly one call with its fields. The answer is relayed: a throw is rethrown, a truthy `error` becomes `Error(error)`, anything else is returned as is |
| `ProductCategoryCreate.HandleIgnoresPadding` | src/product_category/useCases/create/controller.ts:16-21 | requests that differ only in surrounding whitespace are handled identically |

`CreateOrderHandler.CreateStep` states, for one create request (source lines 9-81):

- A null or empty body, or an object with no keys, gives 400 "Request body is required". The store, the repository and the queue are not touched.
- A body that is not JSON gives 500 and writes and sends nothing.
- A validation failure goes to the error mapping and writes nothing.
- For a validated body, with `o` the order `NewOrder` builds from the clock value and the validated fields, the whole outcome is fixed:
  - The id is taken: 500, the store is unchanged, one refused create, nothing sent.
  - The id is free, `QUEUE_URL` is set and the queue accepts: 201 "Order created successfully" with `o`. The store is `Insert` of `o` after one create, and exactly `DispatchOf(QUEUE_URL, o)` is sent.
  - The id is free but `QUEUE_URL` is unset or the queue refuses: 500. `o` is still stored after one create, and nothing is sent.
- At most one repository create is made. The store either stays the same or gains exactly the created order.
- The response is 201 exactly when one message was published.
- A stored order with a non-201 response is always a 500 with nothing published. This is the dual write.

`UpdateOrderHandler.UpdateStep` states, for one update request (source lines 8-63):

- A missing or empty path id or body gives 400 "Order ID and items are required", with no write.
- The response is one of 200, 400 and 500.
- A 200 carries the updated order. That order was stored, keeps its status, and replaces its row with a single update.
- Every failure leaves the store and the log unchanged.
- Past the guard, a body that is not JSON gives 500 with no write.
- Past the guard, the controller's check of the request built from the path and body decides the response. A validation error goes to the error mapping (a ZodError maps to 400). A validated id gives 200 exactly when it is stored, else 500.
- When the validated id is stored, the outcome is exactly the effect of `UpdateOrderSpec` on the validated fields: 200 "Order updated successfully" with the updated order, its table and its one update.

## Left out

- Building `PrismaClient`, `SQSClient` and the database repository: the repository is the abstract `OrderRepository`, the queue the abstract `PaymentQueue`.
- The order controllers and zod internals: validation is the `check` parameter. An error it throws after the service has been called is not modelled.
- `JSON.parse` and `JSON.stringify`:
  - The body is absent, empty, unparseable (a `SyntaxError`, hence 500), or an object given by the three fields the handlers read and a count of other keys.
  - Each of the three fields is missing, present with a value of the schema's type, or present with any other value (`null` included). A present field counts as a key whatever its value, and the controller's `check` sees which of the three it is.
  - A JSON body that is not an object (a number, an array, `null`) is not modelled.
  - Response headers are left out.
- The logger: it has no effect on results.
- Storage failures other than a duplicate id on create: such failures happen inside the controller. Before any write they are covered by `check` returning a non-ZodError.
- `JsValues.ToNumber`: `Number` of texts with surrounding whitespace, a plus sign, a fraction, an exponent, hexadecimal digits or `Infinity` is mapped to NaN, where JavaScript gives a number. `Number("")` is 0 in JavaScript but NaN here; the update handler's guard refuses an empty path id before `Number` is applied, so this case is never reached. `Number("-0")` is negative zero in JavaScript and 0 here.
- `JsValues.ToNumber`, `JsValues.IntText` and `JsValues.NumberOfIntText`: numbers are unbounded integers, not IEEE doubles. JavaScript rounds integers beyond 2^53 and writes numbers from 1e21 up in exponent notation, so there `Number(String(n)) == n` fails for large `n`. Order ids are `Date.now()` values, far below 2^53.
- `ProductCategoryCreate.Parse`, `ProductCategoryCreate.CheckLengths` and `ProductCategoryCreate.Trim`: string lengths are counted in code points, where JavaScript counts UTF-16 code units, so characters outside the Basic Multilingual Plane count once instead of twice. Non-string `name` or `description` values are not modelled.
- `ProductCategoryCreate.Parse`: the `message` text of a ZodError is not modelled (left empty); the issues carry zod's default length messages without issue codes.
- `total` is an integer rather than a floating-point number: no arithmetic is done on it.
- `async`/`await` and concurrent invocations: each request is modelled as one sequential step.
- `Date.now()`: the id is the `now` parameter, and nothing is proved about its uniqueness beyond the store refusing a duplicate.

## Findings

| source | as written | input that shows it | evidently intended | confidence | as-written member | corrected member |
|---|---|---|---|---|---|---|
| src/order/useCases/create/handler.ts:48 | the `OrderId` message attribute is `paymentRequest.toString()`, which is `"[object Object]"` for every payment request | payment requests with orderId 1 and orderId 2 both get the attribute `"[object Object]"` | the attribute carries the order id as text, so messages can be told apart by order | high; not executed | `CreateOrderHandler.AsWrittenAttributeLosesOrderId` | `CreateOrderHandler.OrderIdAttributeDistinguishes` |

The handler's messages are built by `CreateOrderHandler.DispatchOf`, with the attribute as written. The corrected message is `CreateOrderHandler.IntendedDispatchOf`, and `CreateOrderHandler.DispatchAttributes` sets the two side by side.

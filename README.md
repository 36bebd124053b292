# Payment lifecycle and catalog rules of the bicycle-shop backend

This project models two services of the WebXeDapAPI e-commerce backend in Dafny and proves properties of the model.

**Payments** (`payments.dfy`, module `Payments`). This is the payment/order lifecycle of `PaymentService`:

- creating a payment for an order rejects a null request and a claimed amount that differs from the order's line total; a missing user, order or line total is its own error value in the model (see "Left out");
- creation returns the payment the order already has, or inserts a new payment in Processing and moves the order to Processing;
- confirming a payment moves its order to Paid and the payment to Confirmed;
- a status override sets only the payment's status, from a status name;
- two listings map the stored payments to their transfer form, one to one.

The stores the service uses (users, orders, order line totals, payments) are one `Store` value. Each transition is first a pure function on that value (`CreatePayment`, `Confirm`, `UpdateStatus`). Lemmas prove the lifecycle properties about these functions:

- the amount guard;
- one payment per order;
- idempotent creation;
- the terminal confirmation;
- a consistency invariant and an amount invariant.

The class `PaymentService` holds the stores as fields. Its methods are written step by step, as the service is, and each is proved to perform exactly its transition function.

**Catalog** (`products.dfy`, module `Products`). This covers the rules of `ProductsService`:

- `Create`: the checks on type, brand and image, and the new product and its stock row with quantity 0;
- `Update`: the partial-update merge, in which each field is overwritten only under its own guard;
- `GetTypeName`: the truncation to a limit;
- `GetProductsWithinPriceRangeAndBrand` and `SearchKey`: a filter, then "first product per name";
- `GetProductsByNameAndColor`: the specific match or the fallback list, and the distinct colours and sizes on offer.

`Create` and `Update` write tables, so they are methods of the class `Catalog`, and `Update` assigns the fields one by one. The queries only read, so they are functions over the product table as a sequence.

`seqs.dfy` (module `SeqOps`) holds the LINQ operators the queries use, with their properties proved:

- `Where` is `Filter`;
- `Select` is `Map`;
- `Distinct` is `Distinct`;
- `FirstOrDefault(pred)` is `FirstIndex`;
- `GroupBy(key).Select(g => g.First())` is `KeepFirstBy`.

`wrappers.dfy` holds `Option` and `Result`. The service's exceptions are modelled as `Err` values.

The amount check (`Service/PaymentService.cs:41`) runs before the existing-payment check (`Service/PaymentService.cs:44`). So a retry with a wrong amount fails even when the order already has a payment (`CreateRejectsWrongAmount`).

## Model

| member | source | states |
|---|---|---|
| Payments.ParseStatus | Service/PaymentService.cs:103 | a name parses exactly when it is the name of a payment status, and then to the status with that name |
| Payments.ToDto | Service/PaymentService.cs:47 | the transfer form copies id, user, order and amount, and its status name parses back to the payment's status |
| Payments.IndexOfId | Service/PaymentService.cs:87 | the lookup by id finds the first payment with that id, and finds nothing exactly when no payment has it |
| Payments.IndexOfOrder | Service/PaymentService.cs:44 | the lookup by order finds the first payment of that order, and finds nothing exactly when the order has none |
| Payments.PaymentsOfUser | Service/PaymentService.cs:75 | the payments of a user are stored payments of that user, and every stored payment of that user is among them |
| Payments.CreatePayment | Service/PaymentService.cs:31-59 | a rejected request changes no store; a successful one carried a request whose amount equals its order's line total, and answers with a payment of the requested order |
| Payments.Confirm | Service/PaymentService.cs:85-97 | confirmation fails, with no change, exactly when the id is unknown or the payment's order is missing; it leaves users, totals and the id counter alone |
| Payments.UpdateStatus | Service/PaymentService.cs:99-110 | an override never touches an order; an unknown id fails with PaymentNotFound, an unknown name with UnknownStatusName, and a failure changes nothing |
| Payments.CreateRejectsWrongAmount | Service/PaymentService.cs:36-42 | a request whose amount differs from the order's line total fails with AmountMismatch and changes nothing, even if the order already has a payment |
| Payments.CreateReturnsExisting | Service/PaymentService.cs:44-48 | when the order already has a payment, a valid request returns that payment and changes nothing |
| Payments.CreateFresh | Service/PaymentService.cs:50-58 | on an order without a payment, a valid request appends one Processing payment with the request's amount and user, moves the order to Processing, and answers with the new row's transfer form; users and order totals are untouched, and afterwards exactly that payment references the order |
| Payments.CreateIdempotent | Service/PaymentService.cs:44-56 | repeating a successful request on the resulting stores returns the same answer and changes nothing |
| Payments.CreatePreservesConsistent | Service/PaymentService.cs:44-56 | creation keeps ids unique and below the counter, at most one payment per order, and every payment's order present |
| Payments.CreatePreservesAmounts | Service/PaymentService.cs:41-56 | creation never stores a payment whose amount disagrees with its order's line total |
| Payments.ConfirmEffect | Service/PaymentService.cs:89-95 | confirming a stored payment makes it Confirmed with the same id, user, order and amount, makes its order Paid, and changes no other payment and no other order |
| Payments.ConfirmTwice | Service/PaymentService.cs:87-95 | confirming the same payment again gives the same answer and changes nothing more |
| Payments.ConfirmPreserves | Service/PaymentService.cs:89-94 | confirmation keeps the store consistent and keeps every amount equal to its order's line total |
| Payments.UpdateStatusEffect | Service/PaymentService.cs:101-108 | any request that carries a stored payment's id and a valid status name sets that payment's status to the parsed one, whatever the request's other fields hold, and changes nothing else: no other payment, no order, no user, no total |
| Payments.UpdateStatusPreserves | Service/PaymentService.cs:105-106 | an override keeps the store consistent and keeps every amount equal to its order's line total |
| Payments.CreateThenConfirm | Service/PaymentService.cs:50-94 | creating a payment for a new order and confirming it leaves the order Paid and the payment Confirmed, with the order's line total as amount |
| Payments.PaymentService.constructor | Service/PaymentService.cs:23-29 | the service starts on the given consistent stores |
| Payments.PaymentService.CreateAsync | Service/PaymentService.cs:31-59 | the step-by-step method performs exactly `CreatePayment` and keeps the stores consistent |
| Payments.PaymentService.FindAll | Service/PaymentService.cs:61-71 | one transfer form per stored payment, same length and same order |
| Payments.PaymentService.FindByUser | Service/PaymentService.cs:73-83 | one transfer form per payment of the user, in the order of the by-user answer; each result belongs to the user, and every payment of the user is listed; by `SeqOps.FilterInOrder`, that answer keeps row order |
| Payments.PaymentService.ConfirmAsync | Service/PaymentService.cs:85-97 | the step-by-step method performs exactly `Confirm` and keeps the stores consistent |
| Payments.PaymentService.UpdateStatusAsync | Service/PaymentService.cs:99-110 | the step-by-step method performs exactly `UpdateStatus` and keeps the stores consistent |
| SeqOps.Filter | Service/ProductsService.cs:329 | `Where(pred)`: no longer than its input; every element comes from the input and satisfies the predicate, and every input element that satisfies it is kept |
| SeqOps.FilterInOrder | Service/ProductsService.cs:329 | `Where(pred)` keeps row order: the kept elements sit at increasing positions of the input, and every position whose element satisfies the predicate is among them |
| SeqOps.Map | Service/ProductsService.cs:356 | `Select(f)`: the same length as its input, and element i is f of input element i |
| SeqOps.FirstIndex | Service/ProductsService.cs:347 | `FirstOrDefault(pred)`: the first index that satisfies the predicate, and none exactly when no element does |
| SeqOps.Distinct | Service/ProductsService.cs:360-361 | `Distinct()`: no duplicates, and the same elements as its input |
| SeqOps.KeepFirstByCorrect | Service/ProductsService.cs:319-320 | `GroupBy(key).Select(g => g.First())`: pairwise distinct keys, the same keys as the input, and each kept element is the first of its key |
| SeqOps.KeepFirstByInOrder | Service/ProductsService.cs:319-320 | `GroupBy(key).Select(g => g.First())` keeps row order: the kept elements sit at increasing positions of the input, each the first of its key, so the keys come in the order they first occur |
| Products.ApplyUpdate | Service/ProductsService.cs:249-289 | the merge never changes the id, type, brand or colours, and always takes the request's status |
| Products.ApplyUpdateTakesGivenFields | Service/ProductsService.cs:249-288 | every field the request supplies is taken: a name or description that is non-empty and not "null", a positive price or reduced price, a non-negative quantity, a present size, image or creation time |
| Products.ApplyUpdateChangesOnlyGiven | Service/ProductsService.cs:249-288 | a field that changes has been supplied and takes the supplied value |
| Products.ApplyUpdateLastWins | Service/ProductsService.cs:249-289 | a repeated update has the effect of the last one, even when the two applications save the image under different paths |
| Products.ApplyEmptyUpdate | Service/ProductsService.cs:249-289 | an update that supplies nothing and repeats the status leaves the product as it is |
| Products.AssignGivenFields | Service/ProductsService.cs:249-289 | the guarded field-by-field assignments produce exactly the merge `ApplyUpdate` |
| Products.ProductIndex | Service/ProductsService.cs:243 | the lookup finds the first product with the id, and nothing exactly when no product has it |
| Products.Catalog.constructor | Service/ProductsService.cs:19-24 | the catalog starts on the given tables, with unique product ids below the counter |
| Products.Catalog.Create | Service/ProductsService.cs:25-87 | the checks fail in order with TypeNotFound, BrandNotFound and ImageRequired and change nothing; success happens exactly when all three pass, and appends an Available product with the request's fields, the type and brand names, a fresh id and a stock row of quantity 0 |
| Products.Catalog.Update | Service/ProductsService.cs:239-297 | an unknown id fails with ProductNotFound and changes nothing; otherwise only that product changes, to its merge with the request, and the request is returned |
| Products.GetTypeName | Service/ProductsService.cs:151-172 | the result is the first min(limit, n) items of the query's answer, in order, and empty when the limit is not positive |
| Products.Lower | Service/ProductsService.cs:318 | lower-casing keeps the length and folds each character |
| Products.ProductsOfType | Service/ProductsService.cs:302-304 | the products joined to a type of the requested name, and all of them |
| Products.PriceRangeCandidates | Service/ProductsService.cs:316-318 | every candidate is within the price range and of the requested brand when one is given |
| Products.CandidatesOfType | Service/ProductsService.cs:302-318 | the candidates are the items of exactly those products of the type that pass the price and brand filter |
| Products.PriceRangeFirstOfName | Service/ProductsService.cs:316-321 | every result has minPrice <= price <= maxPrice, matches the brand ignoring case when one is given, and is the first candidate of its name |
| Products.PriceRangeOnePerName | Service/ProductsService.cs:319-321 | no two results share a name, and every candidate's name is among the results |
| Products.GetProductsWithinPriceRangeAndBrand | Service/ProductsService.cs:299-324 | no more results than products; with `PriceRangeFirstOfName` and `PriceRangeOnePerName`, the results are the first candidate of each name among the products of the type in the price range and brand; by `KeepFirstByInOrder`, they come in the order in which their names first occur among the candidates, which `FilterInOrder` shows keep table order |
| Products.ProductsNamed | Service/ProductsService.cs:329 | the products with the requested name, and all of them |
| Products.SpecificIndex | Service/ProductsService.cs:336-347 | the first product of the name that passes the colour and size filters, and none exactly when no product passes them |
| Products.NamedDetails | Service/ProductsService.cs:355-357 | the detail list holds the details of exactly the products of the name |
| Products.NamedValues | Service/ProductsService.cs:360-361 | the distinct values of a field over the products of the name are exactly that field's values on them, each once |
| Products.ByNameFailsIffUnknown | Service/ProductsService.cs:329-334 | the query fails, with ProductNotFound, exactly when no product has the name |
| Products.ToDetail | Service/ProductsService.cs:367-383 | the field copy of `MapToProductDetail`; no property is claimed of it, and it is the form in which `ByNameSpecific` and `ByNameFallback` state their answers |
| Products.GetProductsByNameAndColor | Service/ProductsService.cs:326-364 | it fails only with ProductNotFound, and a success holds either a single detail or the list, never both; `ByNameFailsIffUnknown`, `ByNameSpecific`, `ByNameFallback` and `ByNameOffers` establish when it fails, which of the two it holds, and the colours and sizes on offer |
| Products.ByNameSpecific | Service/ProductsService.cs:336-351 | when some product of the name passes the filters, the answer is the first such product alone, with no list |
| Products.ByNameFallback | Service/ProductsService.cs:353-358 | when products of the name exist but none passes the filters, there is no single detail, and the list holds the details of every product of the name |
| Products.ByNameOffers | Service/ProductsService.cs:360-361 | when products of the name exist, the query succeeds, and the colours and the sizes on offer are those of the products of the name, each listed once |
| Products.SearchMatches | Service/ProductsService.cs:523-525 | the products whose name, brand name or type name contains the keyword, and all of them |
| Products.SearchKeyFirstOfName | Service/ProductsService.cs:523-545 | every result's name, brand or type contains the keyword, and every result is built from the first matching product of its name |
| Products.SearchKeyOnePerName | Service/ProductsService.cs:528-530 | no two results share a name, and every matching product's name is among the results |
| Products.SearchKey | Service/ProductsService.cs:519-553 | no more results than products; with `SearchKeyFirstOfName` and `SearchKeyOnePerName`, the results are built from the first matching product of each name; by `KeepFirstByInOrder`, they come in the order in which their names first occur among the matches, which `FilterInOrder` shows keep table order |

## Left out

- Asynchrony and concurrency are not modelled; the model is sequential. This includes the race between the existing-payment check and the insert in `CreateAsync`, where concurrent requests could both insert.
- The repositories (`IPaymentInterface`, `IUserInterface`, `IOrderInterface`, `IOrderDetailsInterface`) and `PaymentMapper` are not part of this model. They appear as lookups in the `Store` value and as the field copy `ToDto`.
- A missing user, order or order total surfaces in the source as a null result or an exception inside a repository. The model turns each case into its own error value: UserNotFound, OrderNotFound or OrderTotalNotFound. The source never tests `user` (`Service/PaymentService.cs:36`) and does not use it on the existing-payment path (`Service/PaymentService.cs:44-48`). So if `GetUser` returns null instead of throwing, the source returns the existing payment, where `CreatePayment` answers UserNotFound.
- Payments.Confirm: a payment whose linked order is missing would raise a null dereference in the source; the model reports OrderNotFound instead.
- Payments.UpdateStatus: a null request is not modelled, since the request is a value.
- Payments.ParseStatus: `Enum.Parse` also accepts numeric strings, comma-separated flag lists and surrounding whitespace; the model accepts only the exact names.
- The status enumerations are not part of this model. Only the values the services name are modelled, plus the order status `Created`, which stands for the status an order has before this service sees it; any other product status is carried as a number.
- Payments.Consistent: at most one payment per order is an invariant the service keeps, not one it checks. It is assumed of the starting stores.
- Exception wrapping and the message strings are left out. Errors are values of `Error` and `CatalogError`.
- SaveImageAsync, GetProductImageBytes, `DateTime.Now` and `Guid.NewGuid` involve file-system I/O, the clock and randomness. They become parameters: the saved path `savedImage` and the time `now`.
- Entity Framework is not modelled: change tracking, `SaveChangesAsync`, the database's collation, and SQL row order. Tables are sequences in row order, text comparison is ordinal, and an entity updated in place becomes a value written back.
- Products.EqualsIgnoreCase: `OrdinalIgnoreCase` is modelled as folding of ASCII letters only, because Unicode case folding is not available.
- Products.GetTypeName: the repository query `GetAllTypeName(keyword)` is not part of this model. Its answer is the parameter `found`.
- Products.GetProductsByNameAndColor: the two chained `Where` filters for colour and size are modelled as one predicate that makes both tests.
- A product detail's status is kept as the status value, not its `ToString` text. The same holds for `SearchKeyDto.status`, which the source fills with `p.Status.ToString()` (`Service/ProductsService.cs:543`).
- Store writes never fail in the model, and each step-by-step method is atomic. In the source, `CreateAsync` inserts the payment and then updates the order (`Service/PaymentService.cs:53-56`), and `ConfirmAsync` updates the order and then the payment (`Service/PaymentService.cs:91-94`). A repository failure between the two writes leaves a half-written state that the model cannot represent. `CreateFresh` and `ConfirmEffect` state the joint effect of both writes only under this abstraction.
- Payments.UpdateStatus: only the payment statuses Processing and Confirmed are modelled. A name of any other `StatusPayment` member that the real enumeration has is answered with UnknownStatusName here, where the source would accept it.
- Products.GetTypeName: the default argument `limit = 8` (`Service/ProductsService.cs:151`) is not modelled separately; a caller that omits the limit is `GetTypeName(found, 8)`.
- DeleteAsync, GetBrandName, GetPriceHasDecreased, GetProductType, GetProductName, GetAllProduct and GetBoSuuTap are plain projections or deletions outside the modelled rules, and the comment controller and DTO files are data holders. None of them are part of this model.

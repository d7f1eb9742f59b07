# Validation in CUBA applications — a Dafny model

These demo applications show the places where a CUBA application validates
data. The projects are orderman, order-management, listeners-validation,
validation-in-controllers, validation-with-custom-annotations and
cargo-ship. This project models the validation logic in ordinary Dafny and
proves what each rule accepts and rejects.

- **Enumerations with ids.** `OrderStatus`, `MeasureUnit`, `ProductMeasure`
  and `KnownContainerType` each carry integer ids. Each has a `fromId`
  lookup that returns the constant with that id, or null. The lookup is
  modelled once, in `EnumIds.FindById`. For each enumeration, the model
  proves that the lookup inverts `getId` and proves which ids are known.
- **Bean-validation constraints.**
  - `CustomerContactsCheckValidator`: a customer needs an e-mail or a phone
    number, and null counts the same as `""`.
  - `ProductWeightValidator`: the accepted weight depends on the product's
    measure.
- **Screen controllers.**
  - `ProductEdit` has a bad-word check on the name field and a retail price
    cap.
  - orderman `OrderEdit` sets up a new order and recomputes its price on
    commit.
  - orderman `OrderItemEdit` has a quantity cap, the fraction rule, the
    stock preview and the subtotal.
- **Entity listeners.** orderman `OrderEntityListener` checks an order's
  price against its items. On insert it then assigns the order number
  `yyyy-MM-dd-<serial>`. The model proves that the number matches the
  `Order.number` pattern and that the date and serial can be read back.
- **Transaction listeners.**
  - listeners-validation refuses a duplex print job on a printer without
    duplex support.
  - orderman runs a stock check before commit (module `StockCheck`). It
    collects the orders to check, folds `(new - old quantity) * M` into a
    map of stock changes, with M taken from the status-transition table,
    then updates the affected stock rows or throws on the first row that
    would go below zero.
- **The stock API service** (`StockApiServiceBean`) runs over a store of
  products and stock rows.

Imperative code stays imperative.

- Mutated entities (`Order`, `OrderItem`) are classes.
- The screen's `ValidationErrors` is a class with an `entries` sequence.
- The stock store is a class with two table fields.
- The stock rows the transaction listener updates are an `array`.
- Every loop of the imperative files (orderman's screens, listeners and
  stock service) is a `method`, proved against a specification function:
  - `SubTotalSum`
  - `OrdersToCheck`
  - `StockChanges`
  - `Settled`
  - `ShortageFound`
  - `Checked`
- The `fromId` search and the listeners-validation check are pure
  searches over a collection; they are recursive functions
  (`EnumIds.FindById`, `PrintJobListener.BeforeCommit`) with contracts.

BigDecimal is `real`. This is exact, and `compareTo` ignores scale, so it
matches `real` comparison.

### How the orderman stock check behaves as written

The model follows the code, and the proofs state these behaviours outright:

- **Sign convention.** The table gives M(null → NEW) = +1, and the delta is
  `(new - old) * M`. So saving a new NEW order **adds** its quantities to
  stock, and leaving an active status subtracts the items' quantity
  *changes* (new - old); an order cancelled with unchanged items moves
  nothing (`CreatingNewOrderAddsStock`, `MultiplierSpec`,
  `CancellingUnchangedItemNoOp`).
- **Dirty entities.** The `isDirty` entities are the ones **skipped**. A
  batch made only of dirty entities commits without touching stock
  (`DirtyBatchIsSkipped`).
- **Order items.** An `OrderItem` pushes its order twice, once merged and
  once as referenced. Its changes therefore count double
  (`ItemEntityCountsTwice`).
- **Unchanged status.** Staying in a status has M = 0. An order saved with
  an unchanged status moves no stock, whatever its items' quantities did
  (`UnchangedStatusNoOp`).
- **Products without a stock row.** These are ignored
  (`ProductWithoutRowIgnored`).
- **The zero boundary.** A row may reach exactly 0 (`ExactlyZeroAccepted`).
- **Rows before a shortage.** They are updated inside the inner transaction
  (`ApplyStockChanges`). That transaction is closed without its commit, so
  the table keeps its old values (`ShortageSpec`).

## Model

Paths are relative to the repository root.

| member | source | states |
|---|---|---|
| EnumIds.FindById | order-management/modules/global/src/com/haulmont/dyakonoff/entity/OrderStatus.java:24-32 | the `fromId` loop: a result has the requested id and is the first such value; none exactly when no value has the id |
| EnumIds.FindByIdInverse | order-management/modules/global/src/com/haulmont/dyakonoff/entity/OrderStatus.java:25-32 | with distinct ids, the search returns a given constant exactly when asked for that constant's id; each enumeration's `FromIdInverse` is this instance |
| OrderStatusEnum.Id | order-management/modules/global/src/com/haulmont/dyakonoff/entity/OrderStatus.java:10-22 | definition: NEW 10, PAID 20, CANCELLED 30, as the constants' constructor arguments and `getId` give them (properties in `IdsDistinct`) |
| OrderStatusEnum.FromId | order-management/modules/global/src/com/haulmont/dyakonoff/entity/OrderStatus.java:24-32 | definition: `fromId` is the `FindById` search over `values()` in declaration order (inverse in `FromIdInverse`) |
| OrderStatusEnum.IdsDistinct | order-management/modules/global/src/com/haulmont/dyakonoff/entity/OrderStatus.java:10-12 | the ids 10, 20, 30 are pairwise distinct and every constant is listed in `values()` |
| OrderStatusEnum.FromIdInverse | order-management/modules/global/src/com/haulmont/dyakonoff/entity/OrderStatus.java:25-32 | `fromId(i)` is `s` exactly when `s.getId() == i` |
| OrderStatusEnum.FromIdKnownIds | order-management/modules/global/src/com/haulmont/dyakonoff/entity/OrderStatus.java:25-32 | `fromId` is non-null exactly for 10, 20 and 30 |
| MeasureUnitEnum.Id | order-management/modules/global/src/com/haulmont/dyakonoff/entity/MeasureUnit.java:10-22 | definition: POUND 10, COUNT 20, PACK 30, as the constants' constructor arguments and `getId` give them (properties in `IdsDistinct`) |
| MeasureUnitEnum.FromId | order-management/modules/global/src/com/haulmont/dyakonoff/entity/MeasureUnit.java:24-32 | definition: `fromId` is the `FindById` search over `values()` in declaration order (inverse in `FromIdInverse`) |
| MeasureUnitEnum.IdsDistinct | order-management/modules/global/src/com/haulmont/dyakonoff/entity/MeasureUnit.java:10-12 | POUND, COUNT, PACK have distinct ids and are all listed |
| MeasureUnitEnum.FromIdInverse | order-management/modules/global/src/com/haulmont/dyakonoff/entity/MeasureUnit.java:25-32 | `fromId(i)` is `u` exactly when `u.getId() == i` |
| MeasureUnitEnum.FromIdKnownIds | order-management/modules/global/src/com/haulmont/dyakonoff/entity/MeasureUnit.java:25-32 | `fromId` is non-null exactly for 10, 20 and 30 |
| ProductMeasureEnum.Id | validation-with-custom-annotations/modules/global/src/io/dyakonoff/validationannotations/entity/ProductMeasure.java:10-22 | definition: Unit 10, Kilogram 20, Ton 30, as the constants' constructor arguments and `getId` give them (properties in `IdsDistinct`) |
| ProductMeasureEnum.FromId | validation-with-custom-annotations/modules/global/src/io/dyakonoff/validationannotations/entity/ProductMeasure.java:24-32 | definition: `fromId` is the `FindById` search over `values()` in declaration order (inverse in `FromIdInverse`) |
| ProductMeasureEnum.IdsDistinct | validation-with-custom-annotations/modules/global/src/io/dyakonoff/validationannotations/entity/ProductMeasure.java:10-12 | Unit, Kilogram, Ton have distinct ids and are all listed |
| ProductMeasureEnum.FromIdInverse | validation-with-custom-annotations/modules/global/src/io/dyakonoff/validationannotations/entity/ProductMeasure.java:25-32 | `fromId(i)` is `m` exactly when `m.getId() == i` |
| ProductMeasureEnum.FromIdKnownIds | validation-with-custom-annotations/modules/global/src/io/dyakonoff/validationannotations/entity/ProductMeasure.java:25-32 | `fromId` is non-null exactly for 10, 20 and 30 |
| KnownContainerTypeEnum.Id | cargo-ship/modules/global/src/io/haulmont/dyakonoff/cargoship/entity/KnownContainerType.java:10-29 | definition: standard_20 10 up to highCube_53 100, as the constants' constructor arguments and `getId` give them (properties in `IdsDistinct`) |
| KnownContainerTypeEnum.FromId | cargo-ship/modules/global/src/io/haulmont/dyakonoff/cargoship/entity/KnownContainerType.java:31-39 | definition: `fromId` is the `FindById` search over `values()` in declaration order (inverse in `FromIdInverse`) |
| KnownContainerTypeEnum.IdsInDeclarationOrder | cargo-ship/modules/global/src/io/haulmont/dyakonoff/cargoship/entity/KnownContainerType.java:10-19 | there are ten constants, the k-th of which has id 10·(k+1), and every constant is listed |
| KnownContainerTypeEnum.IdsDistinct | cargo-ship/modules/global/src/io/haulmont/dyakonoff/cargoship/entity/KnownContainerType.java:10-19 | the ten ids are pairwise distinct |
| KnownContainerTypeEnum.FromIdInverse | cargo-ship/modules/global/src/io/haulmont/dyakonoff/cargoship/entity/KnownContainerType.java:32-39 | `fromId(i)` is `t` exactly when `t.getId() == i` |
| KnownContainerTypeEnum.FromIdKnownIds | cargo-ship/modules/global/src/io/haulmont/dyakonoff/cargoship/entity/KnownContainerType.java:32-39 | `fromId` is non-null exactly for the multiples of 10 from 10 to 100 |
| CustomerContactsCheck.IsValid | orderman/modules/global/src/com/haulmont/dyakonoff/orderman/entity/validator/CustomerContactsCheckValidator.java:18-24 | definition of `isValid` (properties in the lemmas below) |
| CustomerContactsCheck.NullCustomerInvalid | orderman/modules/global/src/com/haulmont/dyakonoff/orderman/entity/validator/CustomerContactsCheckValidator.java:19-20 | a null customer is invalid |
| CustomerContactsCheck.ValidIffContact | orderman/modules/global/src/com/haulmont/dyakonoff/orderman/entity/validator/CustomerContactsCheckValidator.java:22-23 | a customer is valid exactly when the e-mail or the phone is non-null and non-empty |
| CustomerContactsCheck.NullSameAsEmpty | orderman/modules/global/src/com/haulmont/dyakonoff/orderman/entity/validator/CustomerContactsCheckValidator.java:22-23 | a null contact and an empty one give the same verdict |
| CustomerContactsCheck.DependsOnlyOnContacts | orderman/modules/global/src/com/haulmont/dyakonoff/orderman/entity/validator/CustomerContactsCheckValidator.java:18-24 | the verdict depends only on which contacts are given, not on the name or on the contact values |
| CustomerContactsCheck.AddingContactKeepsValid | orderman/modules/global/src/com/haulmont/dyakonoff/orderman/entity/validator/CustomerContactsCheckValidator.java:22-23 | setting a non-empty contact on a valid customer keeps it valid |
| ProductWeightValidator.IsValid | validation-with-custom-annotations/modules/global/src/io/dyakonoff/validationannotations/validator/ProductWeightValidator.java:16-29 | definition of `isValid`, with the null-measure exception as a failure (properties in the lemmas below) |
| ProductWeightValidator.NullProductInvalid | validation-with-custom-annotations/modules/global/src/io/dyakonoff/validationannotations/validator/ProductWeightValidator.java:17-18 | a null product is invalid |
| ProductWeightValidator.RuleByMeasure | validation-with-custom-annotations/modules/global/src/io/dyakonoff/validationannotations/validator/ProductWeightValidator.java:20-29 | Unit needs weight >= 0, Ton exactly 1000, Kilogram exactly 1; the check fails exactly when the measure is null |
| ProductWeightValidator.AcceptedWeightNonNegative | validation-with-custom-annotations/modules/global/src/io/dyakonoff/validationannotations/validator/ProductWeightValidator.java:20-26 | every accepted product has a non-negative weight |
| ProductWeightValidator.FixedWeightUnique | validation-with-custom-annotations/modules/global/src/io/dyakonoff/validationannotations/validator/ProductWeightValidator.java:23-26 | two accepted Ton (or Kilogram) products have the same weight |
| PrintJobListener.Violates | listeners-validation/modules/core/src/io/dyakonoff/listenersvalidation/listener/TransactionListener.java:31-38 | definition: a dirty print job asking for duplex on a printer whose support is null or false (used by `BeforeCommit`'s contract) |
| PrintJobListener.BeforeCommit | listeners-validation/modules/core/src/io/dyakonoff/listenersvalidation/listener/TransactionListener.java:29-47 | passes exactly when no dirty print job asks for duplex on a printer without duplex support; a failure names the first such job's file and printer |
| PrintJobListener.CleanEntitiesPass | listeners-validation/modules/core/src/io/dyakonoff/listenersvalidation/listener/TransactionListener.java:31-32 | a batch without dirty entities always passes |
| PrintJobListener.NoDuplexRequestOrDuplexPrinterPasses | listeners-validation/modules/core/src/io/dyakonoff/listenersvalidation/listener/TransactionListener.java:37-38 | a job that asks for no duplex, or whose printer supports it, passes |
| PrintJobListener.DuplexOnSimplexPrinterFails | listeners-validation/modules/core/src/io/dyakonoff/listenersvalidation/listener/TransactionListener.java:37-42 | a dirty duplex job on a printer whose support is null or false fails first, naming that file and printer |
| PrintJobListener.OtherEntitiesPass | listeners-validation/modules/core/src/io/dyakonoff/listenersvalidation/listener/TransactionListener.java:34 | entities other than print jobs never fail |
| ProductEdit.ValidateName | validation-in-controllers/modules/web/src/io/dyakonoff/controllersvalidation/web/product/ProductEdit.java:30-36 | the name field fails exactly when the detector reports a word, and the message contains that word |
| ProductEdit.RetailPriceErrors | validation-in-controllers/modules/web/src/io/dyakonoff/controllersvalidation/web/product/ProductEdit.java:44-47 | definition of the errors `postValidate` adds (properties in `RetailCapRule`, `CapBoundary`, `CapMonotone`) |
| ProductEdit.PostValidate | validation-in-controllers/modules/web/src/io/dyakonoff/controllersvalidation/web/product/ProductEdit.java:42-47 | appends the retail-cap error to the screen's errors when the rule fires, and nothing else |
| ProductEdit.RetailCapRule | validation-in-controllers/modules/web/src/io/dyakonoff/controllersvalidation/web/product/ProductEdit.java:45-46 | an error is raised exactly for a retail product priced above 10000, and at most one |
| ProductEdit.CapBoundary | validation-in-controllers/modules/web/src/io/dyakonoff/controllersvalidation/web/product/ProductEdit.java:45 | 10000 itself passes; a non-retail product passes at any price |
| ProductEdit.CapMonotone | validation-in-controllers/modules/web/src/io/dyakonoff/controllersvalidation/web/product/ProductEdit.java:45 | raising the price of a refused product keeps it refused |
| Gui.ValidationErrors.Add | orderman/modules/web/src/com/haulmont/dyakonoff/orderman/web/orderitem/OrderItemEdit.java:58 | `errors.add(msg)` appends one screen-level error |
| Gui.ValidationErrors.AddFor | orderman/modules/web/src/com/haulmont/dyakonoff/orderman/web/orderitem/OrderItemEdit.java:70 | `errors.add(field, msg)` appends one error attached to that field |
| OrderNumberFormat.DecimalString | orderman/modules/core/src/com/haulmont/dyakonoff/orderman/service/OrderEntityListener.java:44 | `Long.toString` of a serial is a non-empty string of digits |
| OrderNumberFormat.DecimalStringValue | orderman/modules/core/src/com/haulmont/dyakonoff/orderman/service/OrderEntityListener.java:44 | the decimal string reads back as the number |
| OrderNumberFormat.ZeroPaddedValue | orderman/modules/core/src/com/haulmont/dyakonoff/orderman/service/OrderEntityListener.java:42-43 | a zero-padded date field reads back as its value |
| OrderNumberFormat.ZeroPaddedLength | orderman/modules/core/src/com/haulmont/dyakonoff/orderman/service/OrderEntityListener.java:42-43 | a value below 10^width pads to exactly `width` digits |
| OrderNumberFormat.OrderNumber | orderman/modules/core/src/com/haulmont/dyakonoff/orderman/service/OrderEntityListener.java:38-44 | definition of the number format (properties in `OrderNumberLayout`, `OrderNumberMatchesPattern`, `OrderNumberRoundTrip`) |
| OrderNumberFormat.OrderNumberLayout | orderman/modules/core/src/com/haulmont/dyakonoff/orderman/service/OrderEntityListener.java:42-44 | the number is year (4), '-', month (2), '-', day (2), '-', serial, at those positions |
| OrderNumberFormat.OrderNumberMatchesPattern | orderman/modules/global/src/com/haulmont/dyakonoff/orderman/entity/Order.java:47 | for a date whose year has at most four digits, the assigned number matches `\d{4}-\d{2}-\d{2}-\d+` |
| OrderNumberFormat.OrderNumberRoundTrip | orderman/modules/core/src/com/haulmont/dyakonoff/orderman/service/OrderEntityListener.java:38-44 | parsing the number gives back the date and the serial |
| OrdermanEntities.SubTotalSum | orderman/modules/web/src/com/haulmont/dyakonoff/orderman/web/order/OrderEdit.java:32-35 | definition: the sum of the items' subtotals, which both price loops are proved against |
| OrdermanEntities.ProductValid | orderman/modules/global/src/com/haulmont/dyakonoff/orderman/entity/Product.java:27-43 | definition: the `Product` bounds, a name of at most 255 UTF-16 code units (`Utf16Length`) and a price per measure of at least 0.01 |
| OrdermanEntities.Utf16LengthBounds | orderman/modules/global/src/com/haulmont/dyakonoff/orderman/entity/Product.java:27 | `String.length()` counts each character once, or twice when it lies outside the Basic Multilingual Plane: between `|s|` and `2|s|`, and exactly `|s|` when every character is in that plane |
| OrdermanEntities.Utf16LengthExample | orderman/modules/global/src/com/haulmont/dyakonoff/orderman/entity/Product.java:27 | 128 copies of U+1F600 are 256 code units long, so a product with that name breaks the 255 bound |
| OrdermanEntities.StockRowValid | orderman/modules/global/src/com/haulmont/dyakonoff/orderman/entity/Stock.java:27-34 | definition: the `Stock` bounds, 0 <= inStock <= 10000 and optimalStockLevel >= 0 |
| OrderEntityListener.ValidateOrderPrice | orderman/modules/core/src/com/haulmont/dyakonoff/orderman/service/OrderEntityListener.java:52-59 | the subtracting loop passes exactly when the price equals the sum of the subtotals |
| OrderEntityListener.OnBeforeInsert | orderman/modules/core/src/com/haulmont/dyakonoff/orderman/service/OrderEntityListener.java:35-44 | validates first; a valid order gets number `OrderNumber(today, serial)` and an invalid one keeps its number |
| OrderEntityListener.OnBeforeUpdate | orderman/modules/core/src/com/haulmont/dyakonoff/orderman/service/OrderEntityListener.java:48-49 | passes exactly when the price equals the sum of the subtotals |
| OrderEntityListener.EmptyOrderPrice | orderman/modules/core/src/com/haulmont/dyakonoff/orderman/service/OrderEntityListener.java:52-59 | an order without items passes exactly when its price is 0 |
| OrderEdit.InitNewItem | orderman/modules/web/src/com/haulmont/dyakonoff/orderman/web/order/OrderEdit.java:22-26 | a new order is NEW, priced 0 and dated now |
| OrderEdit.PreCommit | orderman/modules/web/src/com/haulmont/dyakonoff/orderman/web/order/OrderEdit.java:30-37 | the price becomes the sum of the subtotals, so the listener's price rule holds |
| OrderEdit.CommitEditedOrder | orderman/modules/web/src/com/haulmont/dyakonoff/orderman/web/order/OrderEdit.java:30-37 | an order saved from the editor always passes the update listener's price check |
| OrderItemEdit.ValidateQuantityField | orderman/modules/web/src/com/haulmont/dyakonoff/orderman/web/orderitem/OrderItemEdit.java:26-29 | definition of the quantity field's validator (properties in `QuantityCapRule`, `QuantityCapMonotone`) |
| OrderItemEdit.QuantityCapRule | orderman/modules/web/src/com/haulmont/dyakonoff/orderman/web/orderitem/OrderItemEdit.java:26-29 | the field refuses exactly decimals above 1000; 1000, empty and non-decimal values pass |
| OrderItemEdit.QuantityCapMonotone | orderman/modules/web/src/com/haulmont/dyakonoff/orderman/web/orderitem/OrderItemEdit.java:26-29 | the cap is one threshold: a smaller value than an accepted one is accepted, a larger value than a refused one is refused |
| OrderItemEdit.ItemErrors | orderman/modules/web/src/com/haulmont/dyakonoff/orderman/web/orderitem/OrderItemEdit.java:55-71 | definition of the errors `postValidate` adds (properties in `FractionRule`, `StockRule`, `RulesIndependent`) |
| OrderItemEdit.PostValidate | orderman/modules/web/src/com/haulmont/dyakonoff/orderman/web/orderitem/OrderItemEdit.java:48-74 | appends exactly the fraction error, then the stock error, for the rules that fire |
| OrderItemEdit.FractionRule | orderman/modules/web/src/com/haulmont/dyakonoff/orderman/web/orderitem/OrderItemEdit.java:55-59 | a fraction error is raised exactly for a fractional quantity of a non-POUND product |
| OrderItemEdit.StockRule | orderman/modules/web/src/com/haulmont/dyakonoff/orderman/web/orderitem/OrderItemEdit.java:64-71 | the quantity field gets the stock error, naming the product and the amount left, exactly when the quantity exceeds availability |
| OrderItemEdit.RulesIndependent | orderman/modules/web/src/com/haulmont/dyakonoff/orderman/web/orderitem/OrderItemEdit.java:55-71 | the number of errors is the number of rules that fire |
| OrderItemEdit.WholeOrPoundNeverFractional | orderman/modules/web/src/com/haulmont/dyakonoff/orderman/web/orderitem/OrderItemEdit.java:55-56 | whole quantities and POUND products never draw the fraction error |
| OrderItemEdit.BothErrorsExample | orderman/modules/web/src/com/haulmont/dyakonoff/orderman/web/orderitem/OrderItemEdit.java:55-71 | 2.5 COUNT items with 2 in stock draw both errors, in order |
| OrderItemEdit.PreCommit | orderman/modules/web/src/com/haulmont/dyakonoff/orderman/web/orderitem/OrderItemEdit.java:77-82 | the subtotal becomes price per measure times quantity |
| StockApi.FindByName | orderman/modules/core/src/com/haulmont/dyakonoff/orderman/service/StockApiServiceBean.java:45-50 | the loaded row has the product name and is the first one; none exactly when no row has that name |
| StockApi.CountByName | orderman/modules/core/src/com/haulmont/dyakonoff/orderman/service/StockApiServiceBean.java:72-76 | the count is 0 exactly when no product has the name |
| StockApi.ArgsValidImplyStockValid | orderman/modules/global/src/com/haulmont/dyakonoff/orderman/service/StockApiService.java:31-36 | within the service's declared parameter bounds, the new stock row passes the `Stock` entity's bounds |
| StockApi.StockStore.GetProductsInStock | orderman/modules/core/src/com/haulmont/dyakonoff/orderman/service/StockApiServiceBean.java:33-41 | returns every row, or `stockIsEmpty` exactly when there is none |
| StockApi.StockStore.GetStockForProductByName | orderman/modules/core/src/com/haulmont/dyakonoff/orderman/service/StockApiServiceBean.java:44-55 | returns a row of that product, or the not-found error exactly when no row has the name |
| StockApi.StockStore.AddNewProduct | orderman/modules/core/src/com/haulmont/dyakonoff/orderman/service/StockApiServiceBean.java:58-95 | an invalid or duplicate product changes nothing; otherwise the product is stored, then the row if it is valid; within the declared bounds a failure leaves the store unchanged |
| StockApi.StockStore.IncreaseQuantityByProductName | orderman/modules/core/src/com/haulmont/dyakonoff/orderman/service/StockApiServiceBean.java:99-115 | adds the amount to the first row with that name and to no other row; no such row gives the not-found error with nothing changed; within the declared parameter bounds no row loses stock and the increased row gains |
| StockCheck.Contribution | orderman/modules/core/src/com/haulmont/dyakonoff/orderman/service/TransactionListener.java:46-56 | definition: a dirty entity adds nothing, an order itself, an order item its order twice |
| StockCheck.OrdersToCheck | orderman/modules/core/src/com/haulmont/dyakonoff/orderman/service/TransactionListener.java:43-57 | definition of `ordersToCheck` (properties in `OrdersToCheckMembership`, `OrdersToCheckLength`) |
| StockCheck.CollectOrders | orderman/modules/core/src/com/haulmont/dyakonoff/orderman/service/TransactionListener.java:43-57 | the loop builds `OrdersToCheck` |
| StockCheck.OrdersToCheckAppend | orderman/modules/core/src/com/haulmont/dyakonoff/orderman/service/TransactionListener.java:44-57 | collection distributes over concatenated batches |
| StockCheck.OrdersToCheckMembership | orderman/modules/core/src/com/haulmont/dyakonoff/orderman/service/TransactionListener.java:44-56 | an order is checked exactly when a non-dirty order or order item of the batch brings it in |
| StockCheck.OrdersToCheckLength | orderman/modules/core/src/com/haulmont/dyakonoff/orderman/service/TransactionListener.java:48-56 | one entry per non-dirty order, two per non-dirty order item |
| StockCheck.StatusIndex | orderman/modules/core/src/com/haulmont/dyakonoff/orderman/service/TransactionListener.java:139-148 | the index is below 4, and it fails exactly for a status other than null, NEW, PAID, CANCELLED |
| StockCheck.Multiplier | orderman/modules/core/src/com/haulmont/dyakonoff/orderman/service/TransactionListener.java:125-137 | definition of `getOrderMultiplier` (properties in `MultiplierSpec`, `MultiplierRangeAndAntisymmetry`) |
| StockCheck.MatrixIsActivityChange | orderman/modules/core/src/com/haulmont/dyakonoff/orderman/service/TransactionListener.java:111-116 | every table entry is active(new) - active(old), where NEW and PAID are the active statuses |
| StockCheck.MultiplierSpec | orderman/modules/core/src/com/haulmont/dyakonoff/orderman/service/TransactionListener.java:125-137 | the multiplier is +1 into an active status, -1 out of one, 0 otherwise; it fails exactly on an unknown status |
| StockCheck.MultiplierRangeAndAntisymmetry | orderman/modules/core/src/com/haulmont/dyakonoff/orderman/service/TransactionListener.java:111-116 | the multiplier is -1, 0 or +1; reversing a transition negates it; staying put gives 0 |
| StockCheck.MultiplierExamples | orderman/modules/core/src/com/haulmont/dyakonoff/orderman/service/TransactionListener.java:127-131 | the table's corner cases: null to NEW gives +1, NEW to null gives -1, NEW to PAID gives 0 |
| StockCheck.ItemDeltasSpec | orderman/modules/core/src/com/haulmont/dyakonoff/orderman/service/TransactionListener.java:63-70 | one delta per item, `(new - old) * M`, with null quantities read as 0 |
| StockCheck.AllDeltas | orderman/modules/core/src/com/haulmont/dyakonoff/orderman/service/TransactionListener.java:59-70 | definition: the item deltas of all orders in turn, stopped by the first unknown status (properties in `AllDeltasFailsIff`, `AllDeltasAppend`) |
| StockCheck.AllDeltasFailsIff | orderman/modules/core/src/com/haulmont/dyakonoff/orderman/service/TransactionListener.java:61-62 | the deltas fail exactly when some checked order has a status the multiplier refuses, and then with the first such order's error |
| StockCheck.Accumulate | orderman/modules/core/src/com/haulmont/dyakonoff/orderman/service/TransactionListener.java:71-77 | definition of one map update (properties in `FoldFromValue`, `FoldFromKeys`, `SameProductSummed`) |
| StockCheck.StockChanges | orderman/modules/core/src/com/haulmont/dyakonoff/orderman/service/TransactionListener.java:59-79 | definition of the `stockChanges` map or the unknown status (properties in `FoldOrderIndependent`, `StockChangesGroupOrderIrrelevant`) |
| StockCheck.AccumulateItems | orderman/modules/core/src/com/haulmont/dyakonoff/orderman/service/TransactionListener.java:63-78 | the inner loop folds one order's item deltas into the map |
| StockCheck.ComputeStockChanges | orderman/modules/core/src/com/haulmont/dyakonoff/orderman/service/TransactionListener.java:59-79 | the nested loops build `StockChanges`, or stop at the first unknown status |
| StockCheck.FoldFromAppend | orderman/modules/core/src/com/haulmont/dyakonoff/orderman/service/TransactionListener.java:61-79 | folding a concatenation is folding the second part into the map the first part built |
| StockCheck.FoldFromValue | orderman/modules/core/src/com/haulmont/dyakonoff/orderman/service/TransactionListener.java:71-77 | each entry of the map is the sum of that product's deltas |
| StockCheck.FoldFromKeys | orderman/modules/core/src/com/haulmont/dyakonoff/orderman/service/TransactionListener.java:71-77 | a product has an entry exactly when some delta for it is non-zero |
| StockCheck.TotalPermutation | orderman/modules/core/src/com/haulmont/dyakonoff/orderman/service/TransactionListener.java:71-77 | a product's sum depends only on the multiset of deltas |
| StockCheck.FoldDeterminedBySums | orderman/modules/core/src/com/haulmont/dyakonoff/orderman/service/TransactionListener.java:59-79 | the map is determined by the per-product sums and the non-zero products |
| StockCheck.FoldOrderIndependent | orderman/modules/core/src/com/haulmont/dyakonoff/orderman/service/TransactionListener.java:59-79 | permuting the deltas gives the same map |
| StockCheck.AllDeltasAppend | orderman/modules/core/src/com/haulmont/dyakonoff/orderman/service/TransactionListener.java:61-79 | the deltas of concatenated order lists are the concatenated deltas |
| StockCheck.StockChangesGroupOrderIrrelevant | orderman/modules/core/src/com/haulmont/dyakonoff/orderman/service/TransactionListener.java:61-79 | checking two groups of orders in either order gives the same map |
| StockCheck.FirstShortage | orderman/modules/core/src/com/haulmont/dyakonoff/orderman/service/TransactionListener.java:94-101 | the first row pushed below zero, with every earlier row fitting; none exactly when all rows fit |
| StockCheck.Settled | orderman/modules/core/src/com/haulmont/dyakonoff/orderman/service/TransactionListener.java:94-103 | definition of the rows after the update loop (properties in `CommittedSpec`) |
| StockCheck.ShortageFound | orderman/modules/core/src/com/haulmont/dyakonoff/orderman/service/TransactionListener.java:96-100 | definition of the shortage the loop throws, from `FirstShortage` (properties in `ShortageSpec`) |
| StockCheck.ApplyStockChanges | orderman/modules/core/src/com/haulmont/dyakonoff/orderman/service/TransactionListener.java:94-103 | the loop leaves `Settled` rows (affected rows adjusted up to the first shortage) and returns that shortage's product, amount left and change |
| StockCheck.Checked | orderman/modules/core/src/com/haulmont/dyakonoff/orderman/service/TransactionListener.java:37-108 | definition of the outcome and final table (properties in `CommittedSpec`, `ShortageSpec`, `UnknownStatusTouchesNothing`) |
| StockCheck.BeforeCommit | orderman/modules/core/src/com/haulmont/dyakonoff/orderman/service/TransactionListener.java:37-108 | outcome and final table are `Checked(entities, table)`: collect, fold, then update in the inner transaction, committed only without a shortage |
| StockCheck.CommittedSpec | orderman/modules/core/src/com/haulmont/dyakonoff/orderman/service/TransactionListener.java:94-104 | commits exactly when the statuses are known and every loaded row fits; then each loaded row gains its change and stays >= 0, and the other rows are untouched |
| StockCheck.ShortageSpec | orderman/modules/core/src/com/haulmont/dyakonoff/orderman/service/TransactionListener.java:83-105 | on a shortage the table is unchanged; the exception names the first loaded row that goes below zero, and all earlier rows fit |
| StockCheck.UnknownStatusTouchesNothing | orderman/modules/core/src/com/haulmont/dyakonoff/orderman/service/TransactionListener.java:134-136 | a non-dirty order or order item whose order has an unknown old or new status aborts the check with no row changed, naming the first checked order's unknown status |
| StockCheck.DirtyBatchIsSkipped | orderman/modules/core/src/com/haulmont/dyakonoff/orderman/service/TransactionListener.java:46-47 | a batch of dirty entities only commits and changes no row |
| StockCheck.ZeroDeltasNoOp | orderman/modules/core/src/com/haulmont/dyakonoff/orderman/service/TransactionListener.java:71 | when every delta is zero, the batch commits and changes no row |
| StockCheck.ItemEntityCountsTwice | orderman/modules/core/src/com/haulmont/dyakonoff/orderman/service/TransactionListener.java:51-56 | an order item entity doubles its order's stock changes |
| StockCheck.OneItemChanges | orderman/modules/core/src/com/haulmont/dyakonoff/orderman/service/TransactionListener.java:61-77 | one order with one item gives that item's delta, or no entry when the delta is zero |
| StockCheck.CreatingNewOrderAddsStock | orderman/modules/core/src/com/haulmont/dyakonoff/orderman/service/TransactionListener.java:59-103 | saving a new NEW order with quantity q adds q to the product's stock |
| StockCheck.CancellingUnchangedItemNoOp | orderman/modules/core/src/com/haulmont/dyakonoff/orderman/service/TransactionListener.java:65-71 | PAID to CANCELLED with an unchanged quantity moves no stock |
| StockCheck.UnchangedStatusNoOp | orderman/modules/core/src/com/haulmont/dyakonoff/orderman/service/TransactionListener.java:62-71 | an order whose status is unchanged moves no stock, whatever its quantities |
| StockCheck.ExactlyZeroAccepted | orderman/modules/core/src/com/haulmont/dyakonoff/orderman/service/TransactionListener.java:96-97 | a change that takes a row to exactly 0 is accepted |
| StockCheck.BelowZeroRejected | orderman/modules/core/src/com/haulmont/dyakonoff/orderman/service/TransactionListener.java:96-100 | a change that takes a row below 0 is rejected with that product, amount left and change, and the row keeps its value |
| StockCheck.ProductWithoutRowIgnored | orderman/modules/core/src/com/haulmont/dyakonoff/orderman/service/TransactionListener.java:84-94 | a product without a stock row is passed over and the batch commits |
| StockCheck.SameProductSummed | orderman/modules/core/src/com/haulmont/dyakonoff/orderman/service/TransactionListener.java:73-76 | two non-zero deltas for a product merge into one entry holding their sum |

## Left out

- Persistence plumbing is not modelled: `DataManager`, `EntityManager`, views, JPQL and UUID generation. Each query is a function over the stored rows, and `merge` returns the same order.
- Each stock row is loaded by the inner transaction and reread there. The model takes the rows as given and does not model concurrent transactions.
- The "old value" of a field and the dirty flag come from the persistence layer. They are inputs carried by `OrderChange`, `ItemChange` and `ManagedEntity`.
- The stock query returns its rows in some order. The model uses the table's order.
- The stock query gets an empty IN list when the map is empty. The model loads no row in that case.
- The query result could hold several rows for one product. `ApplyStockChanges` and `Settled` change every row of the product, as the update loop does; the `Stock` entity's unique join column allows only one.
- UUIDs are modelled as `int`.
- orderman's own `OrderStatus` and `MeasureUnit` enumerations are not part of this model. `OrdermanEntities.OrderStatus` has the three constants the code names plus `Other(name)` for any further constant. The order-management `MeasureUnit` (POUND, COUNT, PACK) stands for orderman's.
- Logging is left out (`log.error`).
- StockCheck.StatusIndex: the exception message includes the order id; the model keeps only the status name.
- OrderEntityListener.OnBeforeInsert: the clock is read twice in the source. The model reads it once (`today`), so it does not cover a change of date between the two reads.
- OrderEntityListener.OnBeforeInsert: the unique-number counter is not modelled. The serial is a parameter.
- The `@Length(max = 20)` bound on `Order.number` is not checked. A serial with more than 9 digits would exceed it.
- Commit-time bean validation of entities is left out, except where a method calls it: `addNewProduct` validates the product and the stock row against the `Product` and `Stock` bounds.
- Regular-expression and `@Past` annotations are out of scope. So are the other entity annotations not listed in the table.
- The parameter bounds of `StockApiService` are enforced by the framework on service calls. They are modelled as predicates (`AddNewProductArgsValid`, `IncreaseArgsValid`) that the contracts of `ArgsValidImplyStockValid`, `AddNewProduct` and `IncreaseQuantityByProductName` take as hypotheses.
- The bad-word detection service is an uninterpreted function parameter of `ProductEdit.ValidateName`. Its word list is not part of this model.
- `super.postValidate` and `super.preCommit` (the framework's own checks) are not modelled. `preCommit`'s boolean result is not modelled either.
- Null items, subtotals and quantities throw NullPointerException in orderman's `OrderEntityListener`, `OrderEdit` and `OrderItemEdit`. The model leaves them out: those fields are non-null values. The stock check itself reads a null quantity as 0 (`QuantityOrZero`).
- StockCheck.ApplyStockChanges: `Stock.inStock` has no `@NotNull`, and a null value makes `getInStock().add` throw NullPointerException. The model's `inStock` is always a number, so that exception is not modelled.
- StockApi.StockStore.IncreaseQuantityByProductName: likewise, a null `inStock` makes the increase throw NullPointerException; not modelled.
- ProductWeightValidator: a null measure throws NullPointerException at the `switch`. The model reports it as `Failure(NullMeasure)`. The `default` branch cannot be reached with the three constants.
- `fromId(null)` is left out, since the model's ids are plain integers.
- Messages are constructors carrying their parameters. Localised message texts are left out, except for the bad-word text.

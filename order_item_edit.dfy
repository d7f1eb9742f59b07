/**
 * orderman's order-item editor: a cap on the quantity field, two
 * cross-field rules in `postValidate`, and the subtotal set on commit.
 */
module OrderItemEdit {
  import opened Wrappers
  import opened MeasureUnitEnum
  import opened OrdermanEntities
  import Gui

  /** What the quantity text field holds: nothing, a decimal, or a value of another type. */
  datatype FieldValue = Empty | Decimal(d: real) | OtherValue

  datatype Message =
    | QuantityIsTooBig
    | FractionalQuantity(unit: MeasureUnit)
    | InsufficientProduct(productName: string, left: real)

  const QuantityCap: real := 1000.0

  /** The field name the stock error is attached to. */
  const QuantityField: string := "quantity"

  /** The quantity field's validator: a decimal above 1000 is refused, anything else passes. */
  function ValidateQuantityField(value: FieldValue): Outcome<Message> {
    if value.Decimal? && value.d > QuantityCap then Fail(QuantityIsTooBig) else Pass
  }

  /** `q.remainder(ONE) != 0`: the quantity is not a whole number. */
  predicate IsFractional(q: real) {
    q != q.Floor as real
  }

  /** The errors `postValidate` adds, in order: the fraction rule, then the stock rule. */
  function ItemErrors(product: Product, quantity: real, available: real): seq<Gui.ValidationError<Message>> {
    (if product.measure != POUND && IsFractional(quantity)
     then [Gui.ValidationError(Gui.Screen, FractionalQuantity(product.measure))] else [])
    +
    (if quantity > available
     then [Gui.ValidationError(Gui.Field(QuantityField), InsufficientProduct(product.name, available))] else [])
  }

  /** `postValidate`; `available` is what the stock service reports for the product. */
  method PostValidate(item: OrderItem, available: real, errors: Gui.ValidationErrors<Message>)
    modifies errors
    ensures errors.entries == old(errors.entries) + ItemErrors(item.product, item.quantity, available)
  {
    var unit := item.product.measure;
    if unit != POUND && IsFractional(item.quantity) {
      errors.Add(FractionalQuantity(unit));
    }
    if item.quantity > available {
      errors.AddFor(QuantityField, InsufficientProduct(item.product.name, available));
    }
  }

  /** `preCommit`: the subtotal is the price per measure times the quantity. */
  method PreCommit(item: OrderItem)
    modifies item`subTotal
    ensures item.subTotal == item.product.pricePerMeasure * item.quantity
  {
    item.subTotal := item.product.pricePerMeasure * item.quantity;
  }

  /** The cap: 1000 passes, anything above fails, and empty or non-decimal values pass. */
  lemma QuantityCapRule(value: FieldValue)
    ensures ValidateQuantityField(value).Fail? <==> value.Decimal? && value.d > 1000.0
    ensures ValidateQuantityField(Decimal(1000.0)) == Pass
    ensures ValidateQuantityField(Empty) == Pass && ValidateQuantityField(OtherValue) == Pass
  {
  }

  /** Acceptance is closed downwards and refusal upwards: the cap is a single threshold. */
  lemma QuantityCapMonotone(a: real, b: real)
    requires a <= b
    ensures ValidateQuantityField(Decimal(b)) == Pass ==> ValidateQuantityField(Decimal(a)) == Pass
    ensures ValidateQuantityField(Decimal(a)).Fail? ==> ValidateQuantityField(Decimal(b)).Fail?
  {
  }

  /** A fraction error is reported exactly for a fractional quantity of a non-POUND product. */
  lemma FractionRule(product: Product, quantity: real, available: real)
    ensures (exists k :: 0 <= k < |ItemErrors(product, quantity, available)| &&
               ItemErrors(product, quantity, available)[k].message.FractionalQuantity?)
            <==> (product.measure != POUND && IsFractional(quantity))
  {
    var errs := ItemErrors(product, quantity, available);
    if product.measure != POUND && IsFractional(quantity) {
      assert errs[0].message.FractionalQuantity?;
    }
  }

  /** A stock error on the quantity field is reported exactly when the quantity exceeds availability. */
  lemma StockRule(product: Product, quantity: real, available: real)
    ensures (exists k :: 0 <= k < |ItemErrors(product, quantity, available)| &&
               ItemErrors(product, quantity, available)[k] ==
                 Gui.ValidationError(Gui.Field(QuantityField), InsufficientProduct(product.name, available)))
            <==> quantity > available
  {
    var errs := ItemErrors(product, quantity, available);
    if quantity > available {
      assert errs[|errs| - 1] ==
        Gui.ValidationError(Gui.Field(QuantityField), InsufficientProduct(product.name, available));
    }
  }

  /** The two rules are independent: each adds at most one error, and both can fire together. */
  lemma RulesIndependent(product: Product, quantity: real, available: real)
    ensures |ItemErrors(product, quantity, available)| ==
              (if product.measure != POUND && IsFractional(quantity) then 1 else 0) +
              (if quantity > available then 1 else 0)
  {
  }

  /** Whole quantities and POUND products never draw the fraction error. */
  lemma WholeOrPoundNeverFractional(product: Product, n: int, quantity: real, available: real)
    ensures !IsFractional(n as real)
    ensures product.measure == POUND ==>
              forall k :: 0 <= k < |ItemErrors(product, quantity, available)| ==>
                !ItemErrors(product, quantity, available)[k].message.FractionalQuantity?
  {
  }

  /** A fractional non-POUND quantity above availability draws both errors. */
  lemma BothErrorsExample(product: Product)
    requires product.measure == COUNT
    ensures ItemErrors(product, 2.5, 2.0) == [
              Gui.ValidationError(Gui.Screen, FractionalQuantity(COUNT)),
              Gui.ValidationError(Gui.Field(QuantityField), InsufficientProduct(product.name, 2.0))]
  {
    assert IsFractional(2.5) by { assert (2.5).Floor == 2; }
  }
}

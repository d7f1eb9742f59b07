/**
 * `ProductWeightValidator.isValid` (validation-with-custom-annotations): the
 * weight per measure a product must have, by its measure.
 */
module ProductWeightValidator {
  import opened Wrappers
  import opened ProductMeasureEnum

  /**
   * The product of that application. `getWeightPerUnit()`, which the
   * validator calls, is read as the entity's `weightPerMeasure` field; the
   * measure is what `getMeasure()` returns, null for a missing or unknown id.
   */
  datatype Product = Product(
    name: string,
    measure: Option<ProductMeasure>,
    weightPerMeasure: real,
    pricePerMeasure: real)

  /** A `switch` on a null measure throws a NullPointerException. */
  datatype Fault = NullMeasure

  function IsValid(product: Option<Product>): Result<bool, Fault> {
    if product.None? then Success(false)
    else
      match product.value.measure
      case None => Failure(NullMeasure)
      case Some(Unit) => Success(product.value.weightPerMeasure >= 0.0)
      case Some(Ton) => Success(product.value.weightPerMeasure == 1000.0)
      case Some(Kilogram) => Success(product.value.weightPerMeasure == 1.0)
  }

  /** A null product is invalid. */
  lemma NullProductInvalid()
    ensures IsValid(None) == Success(false)
  {
  }

  /** The rule for each measure; the default branch is never taken for a non-null measure. */
  lemma RuleByMeasure(p: Product)
    ensures p.measure == Some(Unit) ==> IsValid(Some(p)) == Success(p.weightPerMeasure >= 0.0)
    ensures p.measure == Some(Ton) ==> IsValid(Some(p)) == Success(p.weightPerMeasure == 1000.0)
    ensures p.measure == Some(Kilogram) ==> IsValid(Some(p)) == Success(p.weightPerMeasure == 1.0)
    ensures IsValid(Some(p)).Failure? <==> p.measure.None?
  {
  }

  /**
   * A product the validator accepts also satisfies the field-level bound
   * `weightPerMeasure >= 0` of its entity.
   */
  lemma AcceptedWeightNonNegative(p: Product)
    requires IsValid(Some(p)) == Success(true)
    ensures p.weightPerMeasure >= 0.0
  {
  }

  /** For Ton and Kilogram exactly one weight is accepted. */
  lemma FixedWeightUnique(p: Product, q: Product)
    requires p.measure == q.measure && (p.measure == Some(Ton) || p.measure == Some(Kilogram))
    requires IsValid(Some(p)) == Success(true) && IsValid(Some(q)) == Success(true)
    ensures p.weightPerMeasure == q.weightPerMeasure
  {
  }
}

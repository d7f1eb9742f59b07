/**
 * The validation-in-controllers product editor: a product-name validator
 * driven by a bad-word detector, and the retail price cap in `postValidate`.
 */
module ProductEdit {
  import opened Wrappers
  import Gui

  datatype Product = Product(name: string, retail: bool, price: real)

  /** The one error `postValidate` adds. */
  datatype Message = RetailPriceTooHigh

  const RetailPriceCap: real := 10000.0

  /** `word` occurs in `s` starting at index `k`. */
  predicate OccursAt(s: string, word: string, k: int) {
    0 <= k && k + |word| <= |s| && s[k..k + |word|] == word
  }

  /** The text of the name validator's exception, naming the word found. */
  function BadWordMessage(word: string): string {
    "Product name should not contain a word '" + word + "'"
  }

  /**
   * The name validator: `detector` is `detectBadWords`, which returns the
   * offending word or null; the validator throws exactly when it found one.
   */
  function ValidateName(name: string, detector: string -> Option<string>): (r: Outcome<string>)
    ensures r.Fail? <==> detector(name).Some?
    ensures r.Fail? ==> exists k :: OccursAt(r.error, detector(name).value, k)
  {
    match detector(name)
    case None => Pass
    case Some(word) =>
      var msg := BadWordMessage(word);
      assert OccursAt(msg, word, 40);
      Fail(msg)
  }

  /** The errors `postValidate` adds for a product. */
  function RetailPriceErrors(p: Product): seq<Gui.ValidationError<Message>> {
    if p.retail && p.price > RetailPriceCap then [Gui.ValidationError(Gui.Screen, RetailPriceTooHigh)] else []
  }

  method PostValidate(p: Product, errors: Gui.ValidationErrors<Message>)
    modifies errors
    ensures errors.entries == old(errors.entries) + RetailPriceErrors(p)
  {
    if p.retail && p.price > RetailPriceCap {
      errors.Add(RetailPriceTooHigh);
    }
  }

  /** The rule: an error exactly for a retail product priced above 10000. */
  lemma RetailCapRule(p: Product)
    ensures RetailPriceErrors(p) != [] <==> p.retail && p.price > 10000.0
    ensures |RetailPriceErrors(p)| <= 1
  {
  }

  /** A retail price of exactly 10000 is accepted; a non-retail product passes at any price. */
  lemma CapBoundary(name: string, price: real)
    ensures RetailPriceErrors(Product(name, true, 10000.0)) == []
    ensures RetailPriceErrors(Product(name, false, price)) == []
  {
  }

  /** Raising the price of a rejected retail product keeps it rejected. */
  lemma CapMonotone(p: Product, higher: real)
    requires RetailPriceErrors(p) != [] && higher >= p.price
    ensures RetailPriceErrors(p.(price := higher)) != []
  {
  }
}

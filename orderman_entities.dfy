/**
 * The orderman entities the screens and listeners work on, reduced to the
 * attributes those read or write.
 */
module OrdermanEntities {
  import opened Wrappers
  import opened MeasureUnitEnum

  /**
   * orderman's own order status. Its enumeration is not part of this model:
   * NEW, PAID and CANCELLED are the constants the code names, and `Other`
   * stands for any further constant that enumeration may declare.
   */
  datatype OrderStatus = NEW | PAID | CANCELLED | Other(name: string)

  /** A product's UUID. */
  type ProductId = int

  datatype Product = Product(id: ProductId, name: string, measure: MeasureUnit, pricePerMeasure: real)

  /** A `Stock` row: one per product. */
  datatype StockRow = StockRow(product: Product, inStock: real, optimalStockLevel: real)

  /** A calendar date, as the clock gives it. */
  datatype Date = Date(year: nat, month: nat, day: nat)

  /** Java's `String.length()`: UTF-16 code units, two for a character outside the Basic Multilingual Plane. */
  function Utf16Length(s: string): nat {
    if s == [] then 0
    else Utf16Length(s[..|s| - 1]) + (if s[|s| - 1] as int > 0xFFFF then 2 else 1)
  }

  /** Between one and two units per character, and one each when all lie in the Basic Multilingual Plane. */
  lemma {:induction false} Utf16LengthBounds(s: string)
    ensures |s| <= Utf16Length(s) <= 2 * |s|
    ensures (forall k :: 0 <= k < |s| ==> s[k] as int <= 0xFFFF) ==> Utf16Length(s) == |s|
  {
    if s != [] {
      var n := |s| - 1;
      Utf16LengthBounds(s[..n]);
      assert forall k :: 0 <= k < n ==> s[..n][k] == s[k];
    }
  }

  /** A supplementary character repeated takes two units per copy. */
  lemma {:induction false} Utf16LengthRepeated(s: string, c: char)
    requires c as int > 0xFFFF
    requires forall k :: 0 <= k < |s| ==> s[k] == c
    ensures Utf16Length(s) == 2 * |s|
  {
    if s != [] {
      var n := |s| - 1;
      assert forall k :: 0 <= k < n ==> s[..n][k] == s[k];
      Utf16LengthRepeated(s[..n], c);
    }
  }

  /** A name of 128 emoji has 256 code units, one more than `@Length(max = 255)` allows. */
  lemma Utf16LengthExample(p: Product)
    requires |p.name| == 128 && forall k :: 0 <= k < 128 ==> p.name[k] == '\U{1F600}'
    ensures Utf16Length(p.name) == 256 && !ProductValid(p)
  {
    Utf16LengthRepeated(p.name, '\U{1F600}');
  }

  /** The bounds the `Product` entity declares: a name of at most 255 UTF-16 units, a price of at least 0.01. */
  predicate ProductValid(p: Product) {
    Utf16Length(p.name) <= 255 && p.pricePerMeasure >= 0.01
  }

  /** The bounds the `Stock` entity declares: 0 <= inStock <= 10000 and optimalStockLevel >= 0. */
  predicate StockRowValid(s: StockRow) {
    0.0 <= s.inStock <= 10000.0 && s.optimalStockLevel >= 0.0
  }

  class OrderItem {
    var product: Product
    var quantity: real
    var subTotal: real

    constructor (product: Product, quantity: real, subTotal: real)
      ensures this.product == product && this.quantity == quantity && this.subTotal == subTotal
    {
      this.product, this.quantity, this.subTotal := product, quantity, subTotal;
    }
  }

  class Order {
    var status: Option<OrderStatus>
    var price: real
    var number: string
    var date: Option<Date>
    var items: seq<OrderItem>

    /** A fresh, not yet initialised order holding the given items. */
    constructor (items: seq<OrderItem>)
      ensures this.items == items && status == None && price == 0.0 && number == "" && date == None
    {
      this.items := items;
      status, price, number, date := None, 0.0, "", None;
    }
  }

  /** The sum of the items' subtotals. */
  function SubTotalSum(items: seq<OrderItem>): real
    reads items
  {
    if items == [] then 0.0
    else SubTotalSum(items[..|items| - 1]) + items[|items| - 1].subTotal
  }
}

/**
 * orderman's `StockApiServiceBean` over an abstract store: the committed
 * products and stock rows are modelled as two tables, and each JPQL query as
 * a function over them.
 */
module StockApi {
  import opened Wrappers
  import opened OrdermanEntities

  /** The CustomValidationExceptions the service throws. */
  datatype ApiError =
    | StockIsEmpty
    | CantFindProductInStock(name: string)
    | ProductViolations
    | ProductExists(name: string)
    | StockViolations

  /** The first stock row whose product has the given name: the query `load` runs. */
  function FindByName(stocks: seq<StockRow>, name: string): (r: Option<nat>)
    ensures r.Some? ==> r.value < |stocks| && stocks[r.value].product.name == name &&
                        forall k :: 0 <= k < r.value ==> stocks[k].product.name != name
    ensures r.None? <==> forall k :: 0 <= k < |stocks| ==> stocks[k].product.name != name
  {
    if stocks == [] then None
    else if stocks[0].product.name == name then Some(0)
    else
      var r := FindByName(stocks[1..], name);
      assert forall k :: 1 <= k < |stocks| ==> stocks[k] == stocks[1..][k - 1];
      if r.Some? then Some(r.value + 1) else None
  }

  /** `SELECT COUNT(p) FROM Product p WHERE p.name = :productName`. */
  function CountByName(products: seq<Product>, name: string): (n: nat)
    ensures n == 0 <==> forall k :: 0 <= k < |products| ==> products[k].name != name
  {
    if products == [] then 0
    else
      assert forall k :: 1 <= k < |products| ==> products[k] == products[1..][k - 1];
      (if products[0].name == name then 1 else 0) + CountByName(products[1..], name)
  }

  /** The parameter constraints `StockApiService` declares for `addNewProduct`. */
  predicate AddNewProductArgsValid(inStock: real, optimalLevel: real) {
    0.0 <= inStock <= 1000.0 && optimalLevel >= 0.0
  }

  /** The parameter constraints `StockApiService` declares for `increaseQuantityByProductName`. */
  predicate IncreaseArgsValid(name: string, amount: real) {
    1 <= Utf16Length(name) <= 255 && 0.0 < amount <= 1000.0
  }

  /** Within the declared bounds, the new stock row always passes its own validation. */
  lemma ArgsValidImplyStockValid(p: Product, inStock: real, optimalLevel: real)
    requires AddNewProductArgsValid(inStock, optimalLevel)
    ensures StockRowValid(StockRow(p, inStock, optimalLevel))
  {
  }

  class StockStore {
    var products: seq<Product>
    var stocks: seq<StockRow>

    constructor (products: seq<Product>, stocks: seq<StockRow>)
      ensures this.products == products && this.stocks == stocks
    {
      this.products, this.stocks := products, stocks;
    }

    /** `getProductsInStock`: every row, or an error when there is none. */
    method GetProductsInStock() returns (r: Result<seq<StockRow>, ApiError>)
      ensures r.Failure? <==> stocks == []
      ensures r.Failure? ==> r.error == StockIsEmpty
      ensures r.Success? ==> r.value == stocks
    {
      var rows := stocks;
      if |rows| == 0 {
        return Failure(StockIsEmpty);
      }
      return Success(rows);
    }

    /** `getStockForProductByName`: the row of the product with that name, or an error. */
    method GetStockForProductByName(name: string) returns (r: Result<StockRow, ApiError>)
      ensures r.Success? ==> r.value in stocks && r.value.product.name == name
      ensures r.Failure? <==> forall k :: 0 <= k < |stocks| ==> stocks[k].product.name != name
      ensures r.Failure? ==> r.error == CantFindProductInStock(name)
    {
      var found := FindByName(stocks, name);
      if found.None? {
        return Failure(CantFindProductInStock(name));
      }
      return Success(stocks[found.value]);
    }

    /**
     * `addNewProduct`: validate the product and check its name is new before
     * storing anything; then store the product, validate the new stock row,
     * and store the row.
     */
    method AddNewProduct(product: Product, inStock: real, optimalLevel: real)
      returns (r: Result<StockRow, ApiError>)
      modifies this
      ensures !ProductValid(product) ==>
                r == Failure(ProductViolations) && products == old(products) && stocks == old(stocks)
      ensures ProductValid(product) && CountByName(old(products), product.name) > 0 ==>
                r == Failure(ProductExists(product.name)) && products == old(products) && stocks == old(stocks)
      ensures ProductValid(product) && CountByName(old(products), product.name) == 0 ==>
                products == old(products) + [product] &&
                (if StockRowValid(StockRow(product, inStock, optimalLevel))
                 then r == Success(StockRow(product, inStock, optimalLevel)) &&
                      stocks == old(stocks) + [StockRow(product, inStock, optimalLevel)]
                 else r == Failure(StockViolations) && stocks == old(stocks))
      ensures AddNewProductArgsValid(inStock, optimalLevel) && r.Failure? ==>
                products == old(products) && stocks == old(stocks)
    {
      if !ProductValid(product) {
        return Failure(ProductViolations);
      }
      if CountByName(products, product.name) > 0 {
        return Failure(ProductExists(product.name));
      }
      products := products + [product];
      var stock := StockRow(product, inStock, optimalLevel);
      if !StockRowValid(stock) {
        return Failure(StockViolations);
      }
      stocks := stocks + [stock];
      return Success(stock);
    }

    /**
     * `increaseQuantityByProductName`: add `amount` to that product's row and
     * leave the others; within the declared parameter bounds no row loses
     * stock and the increased row gains some.
     */
    method IncreaseQuantityByProductName(name: string, amount: real) returns (r: Result<StockRow, ApiError>)
      modifies this
      ensures products == old(products) && |stocks| == |old(stocks)|
      ensures FindByName(old(stocks), name).None? ==>
                r == Failure(CantFindProductInStock(name)) && stocks == old(stocks)
      ensures FindByName(old(stocks), name).Some? ==>
                var k := FindByName(old(stocks), name).value;
                && stocks == old(stocks)[k := old(stocks)[k].(inStock := old(stocks)[k].inStock + amount)]
                && r == Success(stocks[k])
      ensures IncreaseArgsValid(name, amount) ==>
                (forall k :: 0 <= k < |stocks| ==> stocks[k].inStock >= old(stocks)[k].inStock) &&
                (r.Success? ==> exists k :: 0 <= k < |stocks| && stocks[k] == r.value &&
                                  r.value.inStock > old(stocks)[k].inStock)
    {
      var found := FindByName(stocks, name);
      if found.None? {
        return Failure(CantFindProductInStock(name));
      }
      var k := found.value;
      var stock := stocks[k].(inStock := stocks[k].inStock + amount);
      stocks := stocks[k := stock];
      return Success(stock);
    }
  }
}

/**
 * orderman's before-commit `TransactionListener`: the stock check that runs
 * once per transaction, just before it commits.
 *
 *   1. collect the orders to check from the managed entities;
 *   2. fold `(newQty - oldQty) * M` over their items into a map from product
 *      to stock change, M being read from the status-transition table;
 *   3. walk the stock rows of those products: throw on the first row that
 *      would go below zero, otherwise add the change to the row.
 *
 * What the persistence layer supplies (the dirty flag, the old value of a
 * field) is part of the change records the listener receives.
 */
module StockCheck {
  import opened Wrappers
  import opened OrdermanEntities

  /* ---------------- The change records the listener reads ---------------- */

  /** An order item: its product, its quantity now, and `getOldValue(item, "quantity")`. */
  datatype ItemChange = ItemChange(product: ProductId, quantity: Option<real>, oldQuantity: Option<real>)

  /** An order: its status now, `getOldValue(order, "status")`, and its items. */
  datatype OrderChange = OrderChange(status: Option<OrderStatus>, oldStatus: Option<OrderStatus>, items: seq<ItemChange>)

  /** A managed entity with `isDirty`; an order item carries the order that owns it. */
  datatype ManagedEntity =
    | OrderEntity(dirty: bool, order: OrderChange)
    | OrderItemEntity(dirty: bool, owner: OrderChange)
    | OtherEntity(dirty: bool)

  /* ---------------- Step 1: the orders to check ---------------- */

  /**
   * What one entity adds to `ordersToCheck`. A dirty entity is skipped; an
   * order adds itself; an order item adds its order twice, once merged into
   * the persistence context and once as referenced.
   */
  function Contribution(e: ManagedEntity): seq<OrderChange> {
    if e.dirty then []
    else
      match e
      case OrderEntity(_, o) => [o]
      case OrderItemEntity(_, o) => [o, o]
      case OtherEntity(_) => []
  }

  function OrdersToCheck(entities: seq<ManagedEntity>): seq<OrderChange> {
    if entities == [] then []
    else OrdersToCheck(entities[..|entities| - 1]) + Contribution(entities[|entities| - 1])
  }

  /** The first loop of `beforeCommit`, appending to `ordersToCheck`. */
  method CollectOrders(entities: seq<ManagedEntity>) returns (orders: seq<OrderChange>)
    ensures orders == OrdersToCheck(entities)
  {
    orders := [];
    var i := 0;
    while i < |entities|
      invariant 0 <= i <= |entities|
      invariant orders == OrdersToCheck(entities[..i])
    {
      assert entities[..i + 1][..i] == entities[..i];
      var e := entities[i];
      if !e.dirty {
        match e
        case OrderEntity(_, o) =>
          orders := orders + [o];
        case OrderItemEntity(_, o) =>
          orders := orders + [o];
          orders := orders + [o];
        case OtherEntity(_) =>
      }
      i := i + 1;
    }
    assert entities[..i] == entities;
  }

  lemma {:induction false} OrdersToCheckAppend(xs: seq<ManagedEntity>, ys: seq<ManagedEntity>)
    ensures OrdersToCheck(xs + ys) == OrdersToCheck(xs) + OrdersToCheck(ys)
  {
    if ys == [] {
      assert xs + ys == xs;
    } else {
      var n := |ys| - 1;
      assert (xs + ys)[..|xs + ys| - 1] == xs + ys[..n];
      OrdersToCheckAppend(xs, ys[..n]);
    }
  }

  /** An order is checked exactly when some non-dirty entity of the batch brings it in. */
  lemma {:induction false} OrdersToCheckMembership(entities: seq<ManagedEntity>, o: OrderChange)
    ensures o in OrdersToCheck(entities) <==>
              exists k :: 0 <= k < |entities| && !entities[k].dirty && o in Contribution(entities[k])
  {
    if entities != [] {
      var n := |entities| - 1;
      OrdersToCheckMembership(entities[..n], o);
      assert forall k :: 0 <= k < n ==> entities[..n][k] == entities[k];
      if o in Contribution(entities[n]) {
        assert !entities[n].dirty;
      }
    }
  }

  /** `ordersToCheck` has one entry per non-dirty order and two per non-dirty order item. */
  lemma {:induction false} OrdersToCheckLength(entities: seq<ManagedEntity>)
    ensures |OrdersToCheck(entities)| == Weight(entities)
  {
    if entities != [] {
      OrdersToCheckLength(entities[..|entities| - 1]);
    }
  }

  function Weight(entities: seq<ManagedEntity>): nat {
    if entities == [] then 0
    else
      var e := entities[|entities| - 1];
      Weight(entities[..|entities| - 1]) +
        (if e.dirty then 0 else if e.OrderEntity? then 1 else if e.OrderItemEntity? then 2 else 0)
  }

  /* ---------------- The multiplier ---------------- */

  /** `orderTransMatrix`, rows indexed by the old status and columns by the new one. */
  const TransitionMatrix: seq<seq<int>> := [
    [ 0,  1,  1,  0],
    [-1,  0,  0, -1],
    [-1,  0,  0, -1],
    [ 0,  1,  1,  0]
  ]

  /** `orderStatusToInt`: null 0, NEW 1, PAID 2, CANCELLED 3; any other status throws, naming it. */
  function StatusIndex(s: Option<OrderStatus>): (r: Result<nat, string>)
    ensures r.Success? ==> r.value < 4
    ensures r.Failure? <==> s.Some? && s.value.Other?
  {
    match s
    case None => Success(0)
    case Some(NEW) => Success(1)
    case Some(PAID) => Success(2)
    case Some(CANCELLED) => Success(3)
    case Some(Other(name)) => Failure(name)
  }

  /** `getOrderMultiplier`: the old status is read first, then the new one. */
  function Multiplier(oldStatus: Option<OrderStatus>, newStatus: Option<OrderStatus>): Result<int, string> {
    match StatusIndex(oldStatus)
    case Failure(e) => Failure(e)
    case Success(i) =>
      match StatusIndex(newStatus)
      case Failure(e) => Failure(e)
      case Success(j) => Success(TransitionMatrix[i][j])
  }

  /** An index whose status counts as active: NEW or PAID. */
  function ActiveIndex(i: nat): int {
    if i == 1 || i == 2 then 1 else 0
  }

  /** Each entry of the table is the change in "activeness" from the old status to the new one. */
  lemma MatrixIsActivityChange(i: nat, j: nat)
    requires i < 4 && j < 4
    ensures TransitionMatrix[i][j] == ActiveIndex(j) - ActiveIndex(i)
  {
    assert TransitionMatrix[0] == [0, 1, 1, 0];
    assert TransitionMatrix[1] == [-1, 0, 0, -1];
    assert TransitionMatrix[2] == [-1, 0, 0, -1];
    assert TransitionMatrix[3] == [0, 1, 1, 0];
  }

  /** The same rule stated on statuses. */
  predicate Active(s: Option<OrderStatus>) {
    s == Some(NEW) || s == Some(PAID)
  }

  /** The multiplier is +1 into NEW or PAID from elsewhere, -1 out of them, 0 otherwise; it fails only on an unknown status. */
  lemma MultiplierSpec(a: Option<OrderStatus>, b: Option<OrderStatus>)
    ensures Multiplier(a, b).Failure? <==> (a.Some? && a.value.Other?) || (b.Some? && b.value.Other?)
    ensures Multiplier(a, b).Success? ==>
              Multiplier(a, b).value == (if Active(b) then 1 else 0) - (if Active(a) then 1 else 0)
  {
    if Multiplier(a, b).Success? {
      MatrixIsActivityChange(StatusIndex(a).value, StatusIndex(b).value);
    }
  }

  /** The multiplier is -1, 0 or +1; the table is antisymmetric, so staying in a status gives 0. */
  lemma MultiplierRangeAndAntisymmetry(a: Option<OrderStatus>, b: Option<OrderStatus>)
    requires Multiplier(a, b).Success?
    ensures -1 <= Multiplier(a, b).value <= 1
    ensures Multiplier(b, a).Success? && Multiplier(b, a).value == -Multiplier(a, b).value
    ensures Multiplier(a, a) == Success(0)
  {
    MultiplierSpec(a, b);
    MultiplierSpec(b, a);
    MultiplierSpec(a, a);
  }

  /** Some entries, as the table is written: creating a NEW order gives +1. */
  lemma MultiplierExamples()
    ensures Multiplier(None, Some(NEW)) == Success(1)
    ensures Multiplier(Some(NEW), None) == Success(-1)
    ensures Multiplier(Some(NEW), Some(PAID)) == Success(0)
    ensures Multiplier(Some(PAID), Some(CANCELLED)) == Success(-1)
    ensures Multiplier(Some(CANCELLED), Some(NEW)) == Success(1)
  {
  }

  /* ---------------- Step 2: the stock changes ---------------- */

  /** One item's contribution to the stock of its product. */
  datatype Delta = Delta(product: ProductId, amount: real)

  /** A null quantity reads as zero. */
  function QuantityOrZero(q: Option<real>): real {
    if q.Some? then q.value else 0.0
  }

  function ItemDelta(item: ItemChange, m: int): Delta {
    Delta(item.product, (QuantityOrZero(item.quantity) - QuantityOrZero(item.oldQuantity)) * (m as real))
  }

  /** The deltas of an order's items, in item order. */
  function ItemDeltas(items: seq<ItemChange>, m: int): seq<Delta> {
    if items == [] then []
    else ItemDeltas(items[..|items| - 1], m) + [ItemDelta(items[|items| - 1], m)]
  }

  /** One delta per item, in item order. */
  lemma {:induction false} ItemDeltasSpec(items: seq<ItemChange>, m: int)
    ensures |ItemDeltas(items, m)| == |items|
    ensures forall k :: 0 <= k < |items| ==> ItemDeltas(items, m)[k] == ItemDelta(items[k], m)
  {
    if items != [] {
      var n := |items| - 1;
      ItemDeltasSpec(items[..n], m);
    }
  }

  /** The deltas of all orders in turn; the first order with an unknown status stops it. */
  function AllDeltas(orders: seq<OrderChange>): Result<seq<Delta>, string> {
    if orders == [] then Success([])
    else
      var o := orders[|orders| - 1];
      match AllDeltas(orders[..|orders| - 1])
      case Failure(e) => Failure(e)
      case Success(ds) =>
        match Multiplier(o.oldStatus, o.status)
        case Failure(e) => Failure(e)
        case Success(m) => Success(ds + ItemDeltas(o.items, m))
  }

  /** Adding one delta to `stockChanges`: a zero delta is dropped, a repeated product is summed. */
  function Accumulate(changes: map<ProductId, real>, d: Delta): map<ProductId, real> {
    if d.amount == 0.0 then changes
    else if d.product in changes then changes[d.product := changes[d.product] + d.amount]
    else changes[d.product := d.amount]
  }

  function FoldFrom(changes: map<ProductId, real>, ds: seq<Delta>): map<ProductId, real> {
    if ds == [] then changes
    else Accumulate(FoldFrom(changes, ds[..|ds| - 1]), ds[|ds| - 1])
  }

  /** The `stockChanges` map `beforeCommit` builds for its orders, or the unknown status it meets. */
  function StockChanges(orders: seq<OrderChange>): Result<map<ProductId, real>, string> {
    match AllDeltas(orders)
    case Failure(e) => Failure(e)
    case Success(ds) => Success(FoldFrom(map[], ds))
  }

  lemma {:induction false} AllDeltasFailurePersists(orders: seq<OrderChange>, i: nat)
    requires i <= |orders| && AllDeltas(orders[..i]).Failure?
    ensures AllDeltas(orders) == AllDeltas(orders[..i])
    decreases |orders| - i
  {
    if i < |orders| {
      assert orders[..i + 1][..i] == orders[..i];
      AllDeltasFailurePersists(orders, i + 1);
    } else {
      assert orders[..i] == orders;
    }
  }

  /** The deltas fail exactly when some order has an unknown status, and then with the first such order's error. */
  lemma {:induction false} AllDeltasFailsIff(orders: seq<OrderChange>)
    ensures AllDeltas(orders).Failure? <==>
              exists k :: 0 <= k < |orders| && Multiplier(orders[k].oldStatus, orders[k].status).Failure?
    ensures AllDeltas(orders).Failure? ==>
              exists k :: 0 <= k < |orders| && Multiplier(orders[k].oldStatus, orders[k].status).Failure? &&
                AllDeltas(orders).error == Multiplier(orders[k].oldStatus, orders[k].status).error &&
                forall j :: 0 <= j < k ==> Multiplier(orders[j].oldStatus, orders[j].status).Success?
  {
    if orders != [] {
      var n := |orders| - 1;
      AllDeltasFailsIff(orders[..n]);
      assert forall k :: 0 <= k < n ==> orders[..n][k] == orders[k];
      if AllDeltas(orders[..n]).Failure? {
        var k :| 0 <= k < n && Multiplier(orders[..n][k].oldStatus, orders[..n][k].status).Failure? &&
          AllDeltas(orders[..n]).error == Multiplier(orders[..n][k].oldStatus, orders[..n][k].status).error &&
          forall j :: 0 <= j < k ==> Multiplier(orders[..n][j].oldStatus, orders[..n][j].status).Success?;
        assert orders[..n][k] == orders[k];
      } else if Multiplier(orders[n].oldStatus, orders[n].status).Failure? {
        assert forall j :: 0 <= j < n ==> Multiplier(orders[j].oldStatus, orders[j].status).Success? by {
          forall j | 0 <= j < n
            ensures Multiplier(orders[j].oldStatus, orders[j].status).Success?
          {
            assert orders[..n][j] == orders[j];
          }
        }
      }
    }
  }

  lemma {:induction false} FoldFromAppend(changes: map<ProductId, real>, xs: seq<Delta>, ys: seq<Delta>)
    ensures FoldFrom(changes, xs + ys) == FoldFrom(FoldFrom(changes, xs), ys)
  {
    if ys == [] {
      assert xs + ys == xs;
    } else {
      var n := |ys| - 1;
      assert (xs + ys)[..|xs + ys| - 1] == xs + ys[..n];
      FoldFromAppend(changes, xs, ys[..n]);
    }
  }

  /** The inner loop of the second loop: one order's items, with the order's multiplier. */
  method AccumulateItems(changes: map<ProductId, real>, items: seq<ItemChange>, m: int)
    returns (r: map<ProductId, real>)
    ensures r == FoldFrom(changes, ItemDeltas(items, m))
  {
    r := changes;
    var j := 0;
    while j < |items|
      invariant 0 <= j <= |items|
      invariant r == FoldFrom(changes, ItemDeltas(items[..j], m))
    {
      assert items[..j + 1][..j] == items[..j];
      var d := ItemDelta(items[j], m);
      ghost var before := ItemDeltas(items[..j], m);
      assert ItemDeltas(items[..j + 1], m) == before + [d];
      assert (before + [d])[..|before|] == before;
      if d.amount != 0.0 {
        if d.product in r {
          r := r[d.product := r[d.product] + d.amount];
        } else {
          r := r[d.product := d.amount];
        }
      }
      j := j + 1;
    }
    assert items[..j] == items;
  }

  /** The second loop of `beforeCommit`, filling the `stockChanges` map. */
  method ComputeStockChanges(orders: seq<OrderChange>) returns (r: Result<map<ProductId, real>, string>)
    ensures r == StockChanges(orders)
  {
    var changes: map<ProductId, real> := map[];
    var i := 0;
    while i < |orders|
      invariant 0 <= i <= |orders|
      invariant AllDeltas(orders[..i]).Success?
      invariant changes == FoldFrom(map[], AllDeltas(orders[..i]).value)
    {
      ghost var ds := AllDeltas(orders[..i]).value;
      var order := orders[i];
      assert orders[..i + 1][..i] == orders[..i];
      var mult := Multiplier(order.oldStatus, order.status);
      if mult.Failure? {
        AllDeltasFailurePersists(orders, i + 1);
        return Failure(mult.error);
      }
      changes := AccumulateItems(changes, order.items, mult.value);
      FoldFromAppend(map[], ds, ItemDeltas(order.items, mult.value));
      i := i + 1;
    }
    assert orders[..i] == orders;
    return Success(changes);
  }

  /* ---------------- What the map holds ---------------- */

  /** The change recorded for a product, zero when it has no entry. */
  function Get(changes: map<ProductId, real>, p: ProductId): real {
    if p in changes then changes[p] else 0.0
  }

  function Contrib(d: Delta, p: ProductId): real {
    if d.product == p then d.amount else 0.0
  }

  /** The plain sum of all deltas for product `p`. */
  function Total(ds: seq<Delta>, p: ProductId): real {
    if ds == [] then 0.0 else Total(ds[..|ds| - 1], p) + Contrib(ds[|ds| - 1], p)
  }

  /** Some delta for `p` is non-zero. */
  predicate HasNonzero(ds: seq<Delta>, p: ProductId) {
    exists d :: d in ds && d.product == p && d.amount != 0.0
  }

  /** Each entry is the sum of the deltas for its product, added to where the fold started. */
  lemma {:induction false} FoldFromValue(changes: map<ProductId, real>, ds: seq<Delta>, p: ProductId)
    ensures Get(FoldFrom(changes, ds), p) == Get(changes, p) + Total(ds, p)
  {
    if ds != [] {
      FoldFromValue(changes, ds[..|ds| - 1], p);
    }
  }

  /** A product has an entry exactly when it had one already or some delta for it is non-zero. */
  lemma {:induction false} FoldFromKeys(changes: map<ProductId, real>, ds: seq<Delta>, p: ProductId)
    ensures p in FoldFrom(changes, ds) <==> p in changes || HasNonzero(ds, p)
  {
    if ds != [] {
      var n := |ds| - 1;
      FoldFromKeys(changes, ds[..n], p);
      assert forall d :: d in ds <==> d in ds[..n] || d == ds[n] by {
        assert ds == ds[..n] + [ds[n]];
      }
    }
  }

  lemma {:induction false} TotalAppend(xs: seq<Delta>, ys: seq<Delta>, p: ProductId)
    ensures Total(xs + ys, p) == Total(xs, p) + Total(ys, p)
  {
    if ys == [] {
      assert xs + ys == xs;
    } else {
      var n := |ys| - 1;
      assert (xs + ys)[..|xs + ys| - 1] == xs + ys[..n];
      TotalAppend(xs, ys[..n], p);
    }
  }

  /** Taking one delta out of a sequence takes its contribution out of the sum. */
  lemma TotalRemoveAt(ys: seq<Delta>, k: nat, p: ProductId)
    requires k < |ys|
    ensures Total(ys, p) == Total(ys[..k] + ys[k + 1..], p) + Contrib(ys[k], p)
  {
    assert ys == ys[..k] + ([ys[k]] + ys[k + 1..]);
    TotalAppend(ys[..k], [ys[k]] + ys[k + 1..], p);
    TotalAppend([ys[k]], ys[k + 1..], p);
    TotalAppend(ys[..k], ys[k + 1..], p);
    assert [ys[k]][..0] == [];
  }

  lemma MultisetRemoveAt(ys: seq<Delta>, k: nat)
    requires k < |ys|
    ensures multiset(ys[..k] + ys[k + 1..]) == multiset(ys) - multiset{ys[k]}
  {
    assert ys == ys[..k] + [ys[k]] + ys[k + 1..];
  }

  /** The sum for a product depends only on the multiset of deltas. */
  lemma {:induction false} TotalPermutation(xs: seq<Delta>, ys: seq<Delta>, p: ProductId)
    requires multiset(xs) == multiset(ys)
    ensures Total(xs, p) == Total(ys, p)
    decreases |xs|
  {
    if xs == [] {
      assert |ys| == |multiset(ys)| == 0;
    } else {
      var n := |xs| - 1;
      var x := xs[n];
      assert x in multiset(ys) by {
        assert x in xs;
      }
      var k :| 0 <= k < |ys| && ys[k] == x;
      MultisetRemoveAt(xs, n);
      MultisetRemoveAt(ys, k);
      assert xs[..n] + xs[n + 1..] == xs[..n];
      TotalPermutation(xs[..n], ys[..k] + ys[k + 1..], p);
      TotalRemoveAt(ys, k, p);
    }
  }

  /** Two delta sequences with the same sums and the same non-zero products fold to the same map. */
  lemma FoldDeterminedBySums(xs: seq<Delta>, ys: seq<Delta>)
    requires forall p :: Total(xs, p) == Total(ys, p)
    requires forall p :: HasNonzero(xs, p) <==> HasNonzero(ys, p)
    ensures FoldFrom(map[], xs) == FoldFrom(map[], ys)
  {
    var a, b := FoldFrom(map[], xs), FoldFrom(map[], ys);
    forall p ensures (p in a <==> p in b) && (p in a ==> a[p] == b[p]) {
      FoldFromKeys(map[], xs, p);
      FoldFromKeys(map[], ys, p);
      FoldFromValue(map[], xs, p);
      FoldFromValue(map[], ys, p);
    }
  }

  /** The map does not depend on the order in which the deltas arrive. */
  lemma FoldOrderIndependent(xs: seq<Delta>, ys: seq<Delta>)
    requires multiset(xs) == multiset(ys)
    ensures FoldFrom(map[], xs) == FoldFrom(map[], ys)
  {
    forall p ensures Total(xs, p) == Total(ys, p) {
      TotalPermutation(xs, ys, p);
    }
    forall p ensures HasNonzero(xs, p) <==> HasNonzero(ys, p) {
      assert forall d :: d in xs <==> d in multiset(xs);
      assert forall d :: d in ys <==> d in multiset(ys);
    }
    FoldDeterminedBySums(xs, ys);
  }

  lemma {:induction false} AllDeltasAppend(xs: seq<OrderChange>, ys: seq<OrderChange>)
    requires AllDeltas(xs).Success? && AllDeltas(ys).Success?
    ensures AllDeltas(xs + ys) == Success(AllDeltas(xs).value + AllDeltas(ys).value)
  {
    if ys == [] {
      assert xs + ys == xs;
      assert AllDeltas(xs).value + [] == AllDeltas(xs).value;
    } else {
      var n := |ys| - 1;
      assert (xs + ys)[..|xs + ys| - 1] == xs + ys[..n];
      assert (xs + ys)[|xs + ys| - 1] == ys[n];
      AllDeltasAppend(xs, ys[..n]);
      var a, b := AllDeltas(xs).value, AllDeltas(ys[..n]).value;
      var m := Multiplier(ys[n].oldStatus, ys[n].status).value;
      assert a + b + ItemDeltas(ys[n].items, m) == a + (b + ItemDeltas(ys[n].items, m));
    }
  }

  /** Checking two groups of orders in either order gives the same stock changes. */
  lemma StockChangesGroupOrderIrrelevant(xs: seq<OrderChange>, ys: seq<OrderChange>)
    requires StockChanges(xs).Success? && StockChanges(ys).Success?
    ensures StockChanges(xs + ys) == StockChanges(ys + xs)
  {
    AllDeltasAppend(xs, ys);
    AllDeltasAppend(ys, xs);
    var a, b := AllDeltas(xs).value, AllDeltas(ys).value;
    assert multiset(a + b) == multiset(b + a);
    FoldOrderIndependent(a + b, b + a);
  }

  /* ---------------- Step 3: the stock rows ---------------- */

  /** The ValidationException's contents: product name, quantity left, change required. */
  datatype Shortage = Shortage(productName: string, left: real, required: real)

  /** The row is one the query loads: its product has an entry in the map. */
  predicate Affected(row: StockRow, changes: map<ProductId, real>) {
    row.product.id in changes
  }

  /** The row can take its change without going below zero; 0 itself is fine. */
  predicate Fits(row: StockRow, changes: map<ProductId, real>) {
    !Affected(row, changes) || row.inStock + changes[row.product.id] >= 0.0
  }

  function Adjusted(row: StockRow, changes: map<ProductId, real>): StockRow {
    if Affected(row, changes) then row.(inStock := row.inStock + changes[row.product.id]) else row
  }

  function ShortageOf(row: StockRow, changes: map<ProductId, real>): Shortage
    requires Affected(row, changes)
  {
    Shortage(row.product.name, row.inStock, changes[row.product.id])
  }

  /** The first row that cannot take its change. */
  function FirstShortage(rows: seq<StockRow>, changes: map<ProductId, real>): (r: Option<nat>)
    ensures r.None? <==> forall k :: 0 <= k < |rows| ==> Fits(rows[k], changes)
    ensures r.Some? ==> r.value < |rows| && !Fits(rows[r.value], changes) &&
                        forall k :: 0 <= k < r.value ==> Fits(rows[k], changes)
  {
    if rows == [] then None
    else if !Fits(rows[0], changes) then Some(0)
    else
      var r := FirstShortage(rows[1..], changes);
      assert forall k :: 1 <= k < |rows| ==> rows[k] == rows[1..][k - 1];
      if r.Some? then Some(r.value + 1) else None
  }

  /** How many leading rows are updated: all of them, or those before the first shortage. */
  function UpdatedCount(rows: seq<StockRow>, changes: map<ProductId, real>): (n: nat)
    ensures n <= |rows|
  {
    match FirstShortage(rows, changes)
    case None => |rows|
    case Some(k) => k
  }

  /** The rows after the loop: the leading rows adjusted, the rest as they were. */
  function Settled(rows: seq<StockRow>, changes: map<ProductId, real>): (r: seq<StockRow>)
    ensures |r| == |rows|
  {
    var n := UpdatedCount(rows, changes);
    seq(|rows|, i requires 0 <= i < |rows| => if i < n then Adjusted(rows[i], changes) else rows[i])
  }

  /** What the loop throws, if anything. */
  function ShortageFound(rows: seq<StockRow>, changes: map<ProductId, real>): Option<Shortage> {
    match FirstShortage(rows, changes)
    case None => None
    case Some(k) => Some(ShortageOf(rows[k], changes))
  }

  /**
   * The third loop of `beforeCommit`, over the stock rows loaded by the inner
   * transaction's query. The query selects the rows whose product has an
   * entry in `changes`; here every row is visited in table order and the
   * others are passed over.
   */
  method ApplyStockChanges(stocks: array<StockRow>, changes: map<ProductId, real>) returns (short: Option<Shortage>)
    modifies stocks
    ensures stocks[..] == Settled(old(stocks[..]), changes)
    ensures short == ShortageFound(old(stocks[..]), changes)
  {
    ghost var rows := stocks[..];
    var i := 0;
    while i < stocks.Length
      invariant 0 <= i <= stocks.Length
      invariant forall k :: 0 <= k < i ==> Fits(rows[k], changes) && stocks[k] == Adjusted(rows[k], changes)
      invariant forall k :: i <= k < stocks.Length ==> stocks[k] == rows[k]
    {
      var s := stocks[i];
      if s.product.id in changes {
        var valChange := changes[s.product.id];
        var newStockVal := s.inStock + valChange;
        if newStockVal < 0.0 {
          assert FirstShortage(rows, changes) == Some(i);
          assert stocks[..] == Settled(rows, changes);
          return Some(Shortage(s.product.name, s.inStock, valChange));
        }
        stocks[i] := s.(inStock := newStockVal);
      }
      i := i + 1;
    }
    assert FirstShortage(rows, changes).None?;
    assert stocks[..] == Settled(rows, changes);
    return None;
  }

  /* ---------------- The whole check ---------------- */

  datatype CommitOutcome =
    | Committed
    | UnknownStatus(status: string)
    | Insufficient(shortage: Shortage)

  /**
   * The outcome of `beforeCommit` on a batch and a stock table, with the
   * table afterwards. On a shortage the inner transaction is closed without
   * its commit, so the rows it had already updated are rolled back.
   */
  function Checked(entities: seq<ManagedEntity>, rows: seq<StockRow>): (CommitOutcome, seq<StockRow>) {
    match StockChanges(OrdersToCheck(entities))
    case Failure(e) => (UnknownStatus(e), rows)
    case Success(changes) =>
      match ShortageFound(rows, changes)
      case None => (Committed, Settled(rows, changes))
      case Some(s) => (Insufficient(s), rows)
  }

  method BeforeCommit(entities: seq<ManagedEntity>, stocks: array<StockRow>) returns (outcome: CommitOutcome)
    modifies stocks
    ensures (outcome, stocks[..]) == Checked(entities, old(stocks[..]))
  {
    var orders := CollectOrders(entities);
    var r := ComputeStockChanges(orders);
    if r.Failure? {
      return UnknownStatus(r.error);
    }
    // the rows as entities of the inner transaction
    var loaded := new StockRow[stocks.Length](i requires 0 <= i < stocks.Length reads stocks => stocks[i]);
    ghost var rows := stocks[..];
    assert loaded[..] == rows;
    var short := ApplyStockChanges(loaded, r.value);
    assert stocks[..] == rows;
    if short.Some? {
      // the exception leaves the try block before tx.commit(): rolled back
      return Insufficient(short.value);
    }
    // tx.commit() writes the updated rows
    forall i | 0 <= i < stocks.Length {
      stocks[i] := loaded[i];
    }
    assert stocks[..] == loaded[..] == Settled(rows, r.value);
    assert ShortageFound(rows, r.value).None?;
    return Committed;
  }

  /* ---------------- Properties of the whole check ---------------- */

  /**
   * The batch commits exactly when the statuses are known and every loaded
   * row can take its change; then each loaded row gains its change, stays at
   * or above zero, and every other row is untouched.
   */
  lemma CommittedSpec(entities: seq<ManagedEntity>, rows: seq<StockRow>)
    ensures Checked(entities, rows).0 == Committed <==>
              StockChanges(OrdersToCheck(entities)).Success? &&
              forall k :: 0 <= k < |rows| ==> Fits(rows[k], StockChanges(OrdersToCheck(entities)).value)
    ensures Checked(entities, rows).0 == Committed ==>
              var changes := StockChanges(OrdersToCheck(entities)).value;
              var after := Checked(entities, rows).1;
              && |after| == |rows|
              && (forall k :: 0 <= k < |rows| && Affected(rows[k], changes) ==>
                    after[k] == rows[k].(inStock := rows[k].inStock + changes[rows[k].product.id]) &&
                    after[k].inStock >= 0.0)
              && (forall k :: 0 <= k < |rows| && !Affected(rows[k], changes) ==> after[k] == rows[k])
  {
  }

  /**
   * On a shortage the table is left as it was, the exception names the first
   * loaded row that cannot take its change, and every row before it could.
   */
  lemma ShortageSpec(entities: seq<ManagedEntity>, rows: seq<StockRow>)
    requires Checked(entities, rows).0.Insufficient?
    ensures Checked(entities, rows).1 == rows
    ensures var changes := StockChanges(OrdersToCheck(entities)).value;
            exists k :: 0 <= k < |rows| && Affected(rows[k], changes) &&
              rows[k].inStock + changes[rows[k].product.id] < 0.0 &&
              Checked(entities, rows).0.shortage == ShortageOf(rows[k], changes) &&
              (forall j :: 0 <= j < k ==> Fits(rows[j], changes))
  {
    var changes := StockChanges(OrdersToCheck(entities)).value;
    var k := FirstShortage(rows, changes).value;
    assert Affected(rows[k], changes);
  }

  /**
   * A checked order with an unknown old or new status aborts the check before
   * any row is touched; the exception names the unknown status of the first
   * checked order that has one.
   */
  lemma UnknownStatusTouchesNothing(entities: seq<ManagedEntity>, rows: seq<StockRow>, o: OrderChange)
    requires exists k :: 0 <= k < |entities| && !entities[k].dirty && o in Contribution(entities[k])
    requires (o.oldStatus.Some? && o.oldStatus.value.Other?) || (o.status.Some? && o.status.value.Other?)
    ensures Checked(entities, rows).0.UnknownStatus? && Checked(entities, rows).1 == rows
    ensures var orders := OrdersToCheck(entities);
            exists k :: 0 <= k < |orders| && Multiplier(orders[k].oldStatus, orders[k].status).Failure? &&
              Checked(entities, rows).0.status == Multiplier(orders[k].oldStatus, orders[k].status).error &&
              forall j :: 0 <= j < k ==> Multiplier(orders[j].oldStatus, orders[j].status).Success?
  {
    var orders := OrdersToCheck(entities);
    OrdersToCheckMembership(entities, o);
    var k :| 0 <= k < |orders| && orders[k] == o;
    MultiplierSpec(o.oldStatus, o.status);
    AllDeltasFailsIff(orders);
  }

  /** A batch of dirty entities only is skipped entirely: it commits and changes no row. */
  lemma DirtyBatchIsSkipped(entities: seq<ManagedEntity>, rows: seq<StockRow>)
    requires forall k :: 0 <= k < |entities| ==> entities[k].dirty
    ensures Checked(entities, rows) == (Committed, rows)
  {
    assert OrdersToCheck(entities) == [] by {
      OrdersToCheckLength(entities);
      DirtyWeight(entities);
    }
    assert Settled(rows, map[]) == rows;
  }

  lemma {:induction false} DirtyWeight(entities: seq<ManagedEntity>)
    requires forall k :: 0 <= k < |entities| ==> entities[k].dirty
    ensures Weight(entities) == 0
  {
    if entities != [] {
      DirtyWeight(entities[..|entities| - 1]);
    }
  }

  /** When every delta of the batch is zero, no row is touched and the batch commits. */
  lemma ZeroDeltasNoOp(entities: seq<ManagedEntity>, rows: seq<StockRow>)
    requires AllDeltas(OrdersToCheck(entities)).Success?
    requires forall d :: d in AllDeltas(OrdersToCheck(entities)).value ==> d.amount == 0.0
    ensures Checked(entities, rows) == (Committed, rows)
  {
    var ds := AllDeltas(OrdersToCheck(entities)).value;
    var changes := FoldFrom(map[], ds);
    forall p ensures p !in changes {
      FoldFromKeys(map[], ds, p);
    }
    assert changes == map[];
    assert Settled(rows, changes) == rows;
  }

  /** An item entity brings its order in twice, so that order's changes count double. */
  lemma ItemEntityCountsTwice(o: OrderChange, p: ProductId)
    requires StockChanges([o]).Success?
    ensures StockChanges(OrdersToCheck([OrderItemEntity(false, o)])).Success?
    ensures Get(StockChanges(OrdersToCheck([OrderItemEntity(false, o)])).value, p) ==
              2.0 * Get(StockChanges([o]).value, p)
  {
    assert OrdersToCheck([OrderItemEntity(false, o)]) == [o, o] by {
      assert [OrderItemEntity(false, o)][..0] == [];
    }
    assert [o, o] == [o] + [o];
    AllDeltasAppend([o], [o]);
    var ds := AllDeltas([o]).value;
    FoldFromValue(map[], ds + ds, p);
    FoldFromValue(map[], ds, p);
    TotalAppend(ds, ds, p);
  }

  /* ---------------- Worked cases ---------------- */

  /** The change record of an order with one item of `product`, quantity `q` now and `oldQ` before. */
  function OneItemOrder(oldStatus: Option<OrderStatus>, status: Option<OrderStatus>,
                        product: ProductId, q: Option<real>, oldQ: Option<real>): OrderChange
  {
    OrderChange(status, oldStatus, [ItemChange(product, q, oldQ)])
  }

  lemma SingleEntityOrders(o: OrderChange)
    ensures OrdersToCheck([OrderEntity(false, o)]) == [o]
  {
    assert [OrderEntity(false, o)][..0] == [];
  }

  lemma SingleOrderDeltas(o: OrderChange, m: int)
    requires Multiplier(o.oldStatus, o.status) == Success(m)
    ensures AllDeltas([o]) == Success(ItemDeltas(o.items, m))
  {
    assert [o][..0] == [];
    assert [] + ItemDeltas(o.items, m) == ItemDeltas(o.items, m);
  }

  /** The stock changes of one order with one item, by the multiplier. */
  lemma OneItemChanges(oldStatus: Option<OrderStatus>, status: Option<OrderStatus>,
                       product: ProductId, q: Option<real>, oldQ: Option<real>, m: int)
    requires Multiplier(oldStatus, status) == Success(m)
    ensures StockChanges(OrdersToCheck([OrderEntity(false, OneItemOrder(oldStatus, status, product, q, oldQ))])) ==
              Success(Accumulate(map[], ItemDelta(ItemChange(product, q, oldQ), m)))
  {
    var item := ItemChange(product, q, oldQ);
    var o := OneItemOrder(oldStatus, status, product, q, oldQ);
    var d := ItemDelta(item, m);
    SingleEntityOrders(o);
    SingleOrderDeltas(o, m);
    assert ItemDeltas([item], m) == [d] by {
      assert [item][..0] == [];
    }
    assert FoldFrom(map[], [d]) == Accumulate(map[], d) by {
      assert [d][..0] == [];
    }
  }

  /**
   * As the code is written, saving a new NEW order with one item of quantity
   * `q` (non-dirty) ADDS `q` to that product's stock.
   */
  lemma CreatingNewOrderAddsStock(product: Product, q: real, inStock: real, optimal: real)
    requires q > 0.0 && inStock >= 0.0
    ensures Checked([OrderEntity(false, OneItemOrder(None, Some(NEW), product.id, Some(q), None))],
                    [StockRow(product, inStock, optimal)]) ==
            (Committed, [StockRow(product, inStock + q, optimal)])
  {
    OneItemChanges(None, Some(NEW), product.id, Some(q), None, 1);
    var rows := [StockRow(product, inStock, optimal)];
    var changes := map[product.id := q];
    assert FirstShortage(rows, changes).None?;
    assert Settled(rows, changes) == [StockRow(product, inStock + q, optimal)];
  }

  /** Cancelling a PAID order whose item quantity did not change returns nothing to stock (M = -1, delta 0). */
  lemma CancellingUnchangedItemNoOp(product: Product, q: real, inStock: real, optimal: real)
    ensures Checked([OrderEntity(false, OneItemOrder(Some(PAID), Some(CANCELLED), product.id, Some(q), Some(q)))],
                    [StockRow(product, inStock, optimal)]) ==
            (Committed, [StockRow(product, inStock, optimal)])
  {
    OneItemChanges(Some(PAID), Some(CANCELLED), product.id, Some(q), Some(q), -1);
    var rows := [StockRow(product, inStock, optimal)];
    assert Settled(rows, map[]) == rows;
  }

  /**
   * An order saved with its status unchanged moves no stock whatever its
   * items' quantities did, since staying in a status has multiplier 0.
   */
  lemma UnchangedStatusNoOp(o: OrderChange, rows: seq<StockRow>)
    requires o.status == o.oldStatus && !(o.status.Some? && o.status.value.Other?)
    ensures Checked([OrderEntity(false, o)], rows) == (Committed, rows)
  {
    MultiplierSpec(o.oldStatus, o.status);
    SingleEntityOrders(o);
    SingleOrderDeltas(o, 0);
    var ds := ItemDeltas(o.items, 0);
    ItemDeltasSpec(o.items, 0);
    forall d | d in ds ensures d.amount == 0.0 {
      var k :| 0 <= k < |ds| && ds[k] == d;
      assert d == ItemDelta(o.items[k], 0);
    }
    ZeroDeltasNoOp([OrderEntity(false, o)], rows);
  }

  /** A change that brings the stock to exactly zero is accepted. */
  lemma ExactlyZeroAccepted(product: Product, q: real, optimal: real)
    requires q > 0.0
    ensures Checked([OrderEntity(false, OneItemOrder(Some(NEW), None, product.id, Some(q), None))],
                    [StockRow(product, q, optimal)]) ==
            (Committed, [StockRow(product, 0.0, optimal)])
  {
    OneItemChanges(Some(NEW), None, product.id, Some(q), None, -1);
    var rows := [StockRow(product, q, optimal)];
    var changes := map[product.id := -q];
    assert FirstShortage(rows, changes).None?;
    assert Settled(rows, changes) == [StockRow(product, 0.0, optimal)];
  }

  /** A change that would take the stock below zero is rejected and the row keeps its value. */
  lemma BelowZeroRejected(product: Product, q: real, inStock: real, optimal: real)
    requires 0.0 <= inStock < q
    ensures Checked([OrderEntity(false, OneItemOrder(Some(NEW), None, product.id, Some(q), None))],
                    [StockRow(product, inStock, optimal)]) ==
            (Insufficient(Shortage(product.name, inStock, -q)), [StockRow(product, inStock, optimal)])
  {
    OneItemChanges(Some(NEW), None, product.id, Some(q), None, -1);
    var rows := [StockRow(product, inStock, optimal)];
    var changes := map[product.id := -q];
    assert FirstShortage(rows, changes) == Some(0);
  }

  /** A product with no stock row is ignored: the batch commits and the table is unchanged. */
  lemma ProductWithoutRowIgnored(product: Product, other: Product, q: real, inStock: real, optimal: real)
    requires other.id != product.id
    ensures Checked([OrderEntity(false, OneItemOrder(None, Some(NEW), product.id, Some(q), None))],
                    [StockRow(other, inStock, optimal)]) ==
            (Committed, [StockRow(other, inStock, optimal)])
  {
    var entities := [OrderEntity(false, OneItemOrder(None, Some(NEW), product.id, Some(q), None))];
    OneItemChanges(None, Some(NEW), product.id, Some(q), None, 1);
    var rows := [StockRow(other, inStock, optimal)];
    var d := ItemDelta(ItemChange(product.id, Some(q), None), 1);
    assert d.product == product.id && d.amount == q;
    var changes := Accumulate(map[], d);
    assert StockChanges(OrdersToCheck(entities)) == Success(changes);
    assert other.id !in changes;
    assert !Affected(rows[0], changes);
    assert FirstShortage(rows, changes).None?;
    assert Settled(rows, changes) == rows;
  }

  /** Two deltas for the same product are summed into one entry, which may be zero. */
  lemma SameProductSummed(p: ProductId, a: real, b: real)
    requires a != 0.0 && b != 0.0
    ensures FoldFrom(map[], [Delta(p, a), Delta(p, b)]) == map[p := a + b]
  {
    assert [Delta(p, a), Delta(p, b)][..1] == [Delta(p, a)];
    assert FoldFrom(map[], [Delta(p, a)]) == map[p := a] by {
      assert [Delta(p, a)][..0] == [];
    }
    assert map[p := a][p := a + b] == map[p := a + b];
  }
}

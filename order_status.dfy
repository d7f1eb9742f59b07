/** The order-management `OrderStatus` enumeration and its integer ids. */
module OrderStatusEnum {
  import opened Wrappers
  import EnumIds

  datatype OrderStatus = NEW | PAID | CANCELLED

  /** The constants in declaration order, as `values()` returns them. */
  const Values: seq<OrderStatus> := [NEW, PAID, CANCELLED]

  /** The id stored in the database for a status. */
  function Id(s: OrderStatus): int {
    match s
    case NEW => 10
    case PAID => 20
    case CANCELLED => 30
  }

  /** The status with the given id, or None when no constant has it. */
  function FromId(i: int): Option<OrderStatus> {
    EnumIds.FindById(Values, Id, i)
  }

  /** Every status is listed, and no two statuses share an id. */
  lemma IdsDistinct()
    ensures forall s: OrderStatus :: s in Values
    ensures EnumIds.DistinctIds(Values, Id)
  {
    forall s: OrderStatus ensures s in Values {
      match s
      case NEW => assert Values[0] == s;
      case PAID => assert Values[1] == s;
      case CANCELLED => assert Values[2] == s;
    }
  }

  /** `fromId` inverts `getId`, in both directions. */
  lemma FromIdInverse(i: int, s: OrderStatus)
    ensures FromId(i) == Some(s) <==> Id(s) == i
  {
    IdsDistinct();
    EnumIds.FindByIdInverse(Values, Id, i, s);
  }

  /** Exactly the ids 10, 20 and 30 are known; any other id gives null. */
  lemma FromIdKnownIds(i: int)
    ensures FromId(i).Some? <==> (i == 10 || i == 20 || i == 30)
  {
    if i == 10 { FromIdInverse(i, NEW); }
    if i == 20 { FromIdInverse(i, PAID); }
    if i == 30 { FromIdInverse(i, CANCELLED); }
  }
}

/** The order-management `MeasureUnit` enumeration and its integer ids. */
module MeasureUnitEnum {
  import opened Wrappers
  import EnumIds

  datatype MeasureUnit = POUND | COUNT | PACK

  /** The constants in declaration order, as `values()` returns them. */
  const Values: seq<MeasureUnit> := [POUND, COUNT, PACK]

  /** The id stored in the database for a unit. */
  function Id(u: MeasureUnit): int {
    match u
    case POUND => 10
    case COUNT => 20
    case PACK => 30
  }

  /** The unit with the given id, or None when no constant has it. */
  function FromId(i: int): Option<MeasureUnit> {
    EnumIds.FindById(Values, Id, i)
  }

  /** Every unit is listed, and no two units share an id. */
  lemma IdsDistinct()
    ensures forall u: MeasureUnit :: u in Values
    ensures EnumIds.DistinctIds(Values, Id)
  {
    forall u: MeasureUnit ensures u in Values {
      match u
      case POUND => assert Values[0] == u;
      case COUNT => assert Values[1] == u;
      case PACK => assert Values[2] == u;
    }
  }

  /** `fromId` inverts `getId`, in both directions. */
  lemma FromIdInverse(i: int, u: MeasureUnit)
    ensures FromId(i) == Some(u) <==> Id(u) == i
  {
    IdsDistinct();
    EnumIds.FindByIdInverse(Values, Id, i, u);
  }

  /** Exactly the ids 10, 20 and 30 are known; any other id gives null. */
  lemma FromIdKnownIds(i: int)
    ensures FromId(i).Some? <==> (i == 10 || i == 20 || i == 30)
  {
    if i == 10 { FromIdInverse(i, POUND); }
    if i == 20 { FromIdInverse(i, COUNT); }
    if i == 30 { FromIdInverse(i, PACK); }
  }
}

/** The `ProductMeasure` enumeration (validation-with-custom-annotations) and its integer ids. */
module ProductMeasureEnum {
  import opened Wrappers
  import EnumIds

  datatype ProductMeasure = Unit | Kilogram | Ton

  /** The constants in declaration order, as `values()` returns them. */
  const Values: seq<ProductMeasure> := [Unit, Kilogram, Ton]

  /** The id stored in the database for a measure. */
  function Id(m: ProductMeasure): int {
    match m
    case Unit => 10
    case Kilogram => 20
    case Ton => 30
  }

  /** The measure with the given id, or None when no constant has it. */
  function FromId(i: int): Option<ProductMeasure> {
    EnumIds.FindById(Values, Id, i)
  }

  /** Every measure is listed, and no two measures share an id. */
  lemma IdsDistinct()
    ensures forall m: ProductMeasure :: m in Values
    ensures EnumIds.DistinctIds(Values, Id)
  {
    forall m: ProductMeasure ensures m in Values {
      match m
      case Unit => assert Values[0] == m;
      case Kilogram => assert Values[1] == m;
      case Ton => assert Values[2] == m;
    }
  }

  /** `fromId` inverts `getId`, in both directions. */
  lemma FromIdInverse(i: int, m: ProductMeasure)
    ensures FromId(i) == Some(m) <==> Id(m) == i
  {
    IdsDistinct();
    EnumIds.FindByIdInverse(Values, Id, i, m);
  }

  /** Exactly the ids 10, 20 and 30 are known; any other id gives null. */
  lemma FromIdKnownIds(i: int)
    ensures FromId(i).Some? <==> (i == 10 || i == 20 || i == 30)
  {
    if i == 10 { FromIdInverse(i, Unit); }
    if i == 20 { FromIdInverse(i, Kilogram); }
    if i == 30 { FromIdInverse(i, Ton); }
  }
}

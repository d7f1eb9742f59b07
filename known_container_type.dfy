/** The cargo-ship `KnownContainerType` enumeration and its integer ids. */
module KnownContainerTypeEnum {
  import opened Wrappers
  import EnumIds

  datatype KnownContainerType =
    | standard_20 | standard_40 | standard_45 | standard_48 | standard_53
    | highCube_20 | highCube_40 | highCube_45 | highCube_48 | highCube_53

  /** The constants in declaration order, as `values()` returns them. */
  const Values: seq<KnownContainerType> := [
    standard_20, standard_40, standard_45, standard_48, standard_53,
    highCube_20, highCube_40, highCube_45, highCube_48, highCube_53
  ]

  /** The id stored in the database for a container type. */
  function Id(t: KnownContainerType): int {
    match t
    case standard_20 => 10
    case standard_40 => 20
    case standard_45 => 30
    case standard_48 => 40
    case standard_53 => 50
    case highCube_20 => 60
    case highCube_40 => 70
    case highCube_45 => 80
    case highCube_48 => 90
    case highCube_53 => 100
  }

  /** The container type with the given id, or None when no constant has it. */
  function FromId(i: int): Option<KnownContainerType> {
    EnumIds.FindById(Values, Id, i)
  }

  /** The k-th constant in declaration order has id 10 * (k + 1); every type is listed. */
  lemma IdsInDeclarationOrder()
    ensures |Values| == 10
    ensures forall k :: 0 <= k < |Values| ==> Id(Values[k]) == 10 * (k + 1)
    ensures forall t: KnownContainerType :: t in Values
  {
    forall t: KnownContainerType ensures t in Values {
      match t
      case standard_20 => assert Values[0] == t;
      case standard_40 => assert Values[1] == t;
      case standard_45 => assert Values[2] == t;
      case standard_48 => assert Values[3] == t;
      case standard_53 => assert Values[4] == t;
      case highCube_20 => assert Values[5] == t;
      case highCube_40 => assert Values[6] == t;
      case highCube_45 => assert Values[7] == t;
      case highCube_48 => assert Values[8] == t;
      case highCube_53 => assert Values[9] == t;
    }
  }

  /** No two container types share an id. */
  lemma IdsDistinct()
    ensures EnumIds.DistinctIds(Values, Id)
  {
    IdsInDeclarationOrder();
  }

  /** `fromId` inverts `getId`, in both directions. */
  lemma FromIdInverse(i: int, t: KnownContainerType)
    ensures FromId(i) == Some(t) <==> Id(t) == i
  {
    IdsDistinct();
    IdsInDeclarationOrder();
    EnumIds.FindByIdInverse(Values, Id, i, t);
  }

  /** The known ids are the multiples of 10 from 10 to 100; any other id gives null. */
  lemma FromIdKnownIds(i: int)
    ensures FromId(i).Some? <==> (10 <= i <= 100 && i % 10 == 0)
  {
    IdsInDeclarationOrder();
    if 10 <= i <= 100 && i % 10 == 0 {
      var k := i / 10 - 1;
      assert Id(Values[k]) == i;
      FromIdInverse(i, Values[k]);
    } else {
      forall k | 0 <= k < |Values| ensures Id(Values[k]) != i {
        assert Id(Values[k]) == 10 * (k + 1);
      }
    }
  }
}

/** The kinds of meal on the menu, with ERROR as the sentinel for a name
    that does not deserialize to a known kind. */
module MealTypes {
  import opened Common

  datatype MealType =
    | Asian
    | ColdBeverage
    | Brazilian
    | Drink
    | Italian
    | Dessert
    | Error
  {
    /** The constant's name, as toString() reports it. */
    function Name(): string {
      match this
      case Asian => "ASIAN"
      case ColdBeverage => "COLD_BEVERAGE"
      case Brazilian => "BRAZILIAN"
      case Drink => "DRINK"
      case Italian => "ITALIAN"
      case Dessert => "DESSERT"
      case Error => "ERROR"
    }
  }

  /** values(), in declaration order. */
  const Values: seq<MealType> := [Asian, ColdBeverage, Brazilian, Drink, Italian, Dessert, Error]

  /** The name-to-constant table built once from values(). */
  const Cache: map<string, MealType> := IndexBy(Values, (c: MealType) => c.Name())

  /** safeValueOf: the constant with that name, ERROR for any other string
      (null included). */
  function SafeValueOf(value: Option<string>): (r: MealType)
    ensures r in Values
    ensures r != Error ==> value == Some(r.Name())
  {
    if value.Some? && value.value in Cache then Cache[value.value] else Error
  }

  /** Every constant is in values(). */
  lemma Listed(c: MealType)
    ensures c in Values
  {
    match c
    case Asian =>
    case ColdBeverage =>
    case Brazilian =>
    case Drink =>
    case Italian =>
    case Dessert =>
    case Error =>
  }

  /** Seven constants, ERROR included, every one listed once, no two with
      the same name. */
  lemma NamesDistinct()
    ensures |Values| == 7 && Error in Values
    ensures forall c: MealType :: c in Values
    ensures forall c: MealType, d: MealType :: c.Name() == d.Name() ==> c == d
  {
    forall c: MealType
      ensures c in Values
    {
      Listed(c);
    }
  }

  /** Parsing a constant's own name gives the constant back. */
  lemma RoundTrip(c: MealType)
    ensures SafeValueOf(Some(c.Name())) == c
  {
    Listed(c);
  }

  /** The fallback: the result is ERROR exactly when the input is null, is
      "ERROR" itself, or is not the name of any constant. */
  lemma UnknownIsError(value: Option<string>)
    ensures SafeValueOf(value) == Error <==>
      (value.None? || value.value == "ERROR" || forall c: MealType :: value.value != c.Name())
  {
    if value.Some? && value.value !in Cache {
      forall c: MealType
        ensures value.value != c.Name()
      {
        Listed(c);
      }
    }
  }
}

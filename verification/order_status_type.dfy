/** The order lifecycle statuses, with ERROR as the sentinel for a name that
    does not deserialize to a known status. */
module OrderStatusTypes {
  import opened Common

  datatype OrderStatusType =
    | Created
    | WaitingPaymentConfirmation
    | Paid
    | WaitingRestaurantConfirmation
    | InPreparation
    | WaitingToDeliver
    | Delivered
    | Error
  {
    /** The constant's name, as toString() reports it. */
    function Name(): string {
      match this
      case Created => "CREATED"
      case WaitingPaymentConfirmation => "WAITING_PAYMENT_CONFIRMATION"
      case Paid => "PAID"
      case WaitingRestaurantConfirmation => "WAITING_RESTAURANT_CONFIRMATION"
      case InPreparation => "IN_PREPARATION"
      case WaitingToDeliver => "WAITING_TO_DELIVER"
      case Delivered => "DELIVERED"
      case Error => "ERROR"
    }
  }

  /** values(), in declaration order. */
  const Values: seq<OrderStatusType> :=
    [Created, WaitingPaymentConfirmation, Paid, WaitingRestaurantConfirmation,
     InPreparation, WaitingToDeliver, Delivered, Error]

  /** The name-to-constant table built once from values(). */
  const Cache: map<string, OrderStatusType> := IndexBy(Values, (c: OrderStatusType) => c.Name())

  /** safeValueOf: the constant with that name, ERROR for any other string
      (null included). */
  function SafeValueOf(value: Option<string>): (r: OrderStatusType)
    ensures r in Values
    ensures r != Error ==> value == Some(r.Name())
  {
    if value.Some? && value.value in Cache then Cache[value.value] else Error
  }

  /** Every constant is in values(). */
  lemma Listed(c: OrderStatusType)
    ensures c in Values
  {
    match c
    case Created =>
    case WaitingPaymentConfirmation =>
    case Paid =>
    case WaitingRestaurantConfirmation =>
    case InPreparation =>
    case WaitingToDeliver =>
    case Delivered =>
    case Error =>
  }

  /** Constants and names are in one-to-one correspondence: eight constants,
      every one listed once, no two with the same name. */
  lemma NamesDistinct()
    ensures |Values| == 8
    ensures forall c: OrderStatusType :: c in Values
    ensures forall c: OrderStatusType, d: OrderStatusType :: c.Name() == d.Name() ==> c == d
  {
    forall c: OrderStatusType
      ensures c in Values
    {
      Listed(c);
    }
  }

  /** Parsing a constant's own name gives the constant back. */
  lemma RoundTrip(c: OrderStatusType)
    ensures SafeValueOf(Some(c.Name())) == c
  {
    Listed(c);
  }

  /** The fallback: the result is ERROR exactly when the input is null, is
      "ERROR" itself, or is not the name of any constant. */
  lemma UnknownIsError(value: Option<string>)
    ensures SafeValueOf(value) == Error <==>
      (value.None? || value.value == "ERROR" || forall c: OrderStatusType :: value.value != c.Name())
  {
    if value.Some? && value.value !in Cache {
      forall c: OrderStatusType
        ensures value.value != c.Name()
      {
        Listed(c);
      }
    }
  }
}

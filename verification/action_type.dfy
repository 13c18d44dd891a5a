/** The mutation an order event reports. Unlike the other enumerations it
    has no ERROR sentinel: an unknown name parses to nothing. */
module ActionTypes {
  import opened Common

  datatype ActionType = Create | Update | Delete
  {
    /** The constant's name, as toString() reports it. */
    function Name(): string {
      match this
      case Create => "CREATE"
      case Update => "UPDATE"
      case Delete => "DELETE"
    }
  }

  /** values(), in declaration order. */
  const Values: seq<ActionType> := [Create, Update, Delete]

  /** The name-to-constant table built once from values(). */
  const Cache: map<string, ActionType> := IndexBy(Values, (c: ActionType) => c.Name())

  /** safeValueOf: the constant with that name, or null (None) for any
      other string, null included. */
  function SafeValueOf(value: Option<string>): (r: Option<ActionType>)
    ensures r.Some? ==> value == Some(r.value.Name())
  {
    if value.Some? && value.value in Cache then Some(Cache[value.value]) else None
  }

  /** Every constant is in values(). */
  lemma Listed(c: ActionType)
    ensures c in Values
  {
    match c
    case Create =>
    case Update =>
    case Delete =>
  }

  /** Exactly three constants, every one listed once, no two with the same
      name. */
  lemma NamesDistinct()
    ensures |Values| == 3
    ensures forall c: ActionType :: c in Values
    ensures forall c: ActionType, d: ActionType :: c.Name() == d.Name() ==> c == d
  {
    forall c: ActionType
      ensures c in Values
    {
      Listed(c);
    }
  }

  /** Parsing a constant's own name gives the constant back. */
  lemma RoundTrip(c: ActionType)
    ensures SafeValueOf(Some(c.Name())) == Some(c)
  {
    Listed(c);
  }

  /** The result is present exactly when the input is one of the three
      names; there is no fallback constant. */
  lemma PresentIffKnown(value: Option<string>)
    ensures SafeValueOf(value).Some? <==>
      (value == Some("CREATE") || value == Some("UPDATE") || value == Some("DELETE"))
  {
    if value.Some? && value.value in Cache {
      var c := Cache[value.value];
      assert c == Create || c == Update || c == Delete;
    } else if value.Some? {
      RoundTrip(Create);
      RoundTrip(Update);
      RoundTrip(Delete);
    }
  }
}

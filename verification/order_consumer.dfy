/** The event consumer: replays inbound order events through the order
    service, absorbing every failure at the message boundary. */
module OrderConsumers {
  import opened Common
  import opened Orders
  import opened OrderServices
  import ActionTypes

  /** A Java throwable as far as the consumer looks at it: its class name,
      its message (possibly null) and its cause. */
  datatype Throwable = Throwable(className: string, message: Option<string>, cause: Option<Throwable>)

  /** Throwable.toString: the class name, then ": " and the message when
      there is one. */
  function Describe(t: Throwable): string {
    if t.message.Some? then t.className + ": " + t.message.value else t.className
  }

  /** The throwable itself or one of its causes, transitively. */
  predicate InCauseChain(candidate: Throwable, t: Throwable) {
    candidate == t || (t.cause.Some? && InCauseChain(candidate, t.cause.value))
  }

  /** ExceptionUtils.getRootCause: the last throwable of the cause chain; a
      throwable without a cause is its own root. */
  function RootCause(t: Throwable): (root: Throwable)
    ensures root.cause.None?
    ensures InCauseChain(root, t)
  {
    if t.cause.None? then t else RootCause(t.cause.value)
  }

  /** getMessage: empty for no throwable; the root cause's message when it
      is not blank; otherwise the throwable's own toString. */
  function GetMessage(throwable: Option<Throwable>): (text: string)
    ensures throwable.None? ==> text == ""
    ensures throwable.Some? && IsNotBlank(RootCause(throwable.value).message) ==>
      text == RootCause(throwable.value).message.value
    ensures throwable.Some? && !IsNotBlank(RootCause(throwable.value).message) ==>
      text == Describe(throwable.value)
  {
    if throwable.None? then ""
    else
      var root := RootCause(throwable.value);
      if !IsNotBlank(root.message) then Describe(throwable.value) else root.message.value
  }

  /** How a service failure reaches the consumer: a BusinessException
      carrying the message, with no cause. */
  function BusinessFailure(message: string): Throwable {
    Throwable("io.good.food.exception.BusinessException", Some(message), None)
  }

  /** A failure with a non-blank message and no cause is reported by that
      message alone. */
  lemma BusinessFailureMessage(message: string)
    requires IsNotBlank(Some(message))
    ensures GetMessage(Some(BusinessFailure(message))) == message
  {
  }

  /** A wrapped failure is reported by the innermost message, not by the
      wrapper's. */
  lemma WrappedFailureMessage(wrapper: string, message: Option<string>, inner: Throwable)
    requires IsNotBlank(RootCause(inner).message)
    ensures GetMessage(Some(Throwable(wrapper, message, Some(inner)))) == RootCause(inner).message.value
  {
  }

  /** What the consumer logs for a failed service call. */
  function FailureLog(message: string): string {
    GetMessage(Some(BusinessFailure(message)))
  }

  /** Every message that the order service's create, update and delete can
      raise (the only failures the consumer receives) is logged verbatim:
      each is an instance of BusinessFailureMessage, since none of them is
      blank. */
  lemma ServiceMessagesLoggedVerbatim()
    ensures forall m | m in {"Customer Id is required", "Meals are required", "Invalid order status",
                             "Id is required", "Order not found"} :: FailureLog(m) == m
  {
    forall m | m in {"Customer Id is required", "Meals are required", "Invalid order status",
                     "Id is required", "Order not found"}
      ensures FailureLog(m) == m
    {
      assert !IsWhitespace(m[0]);
      BusinessFailureMessage(m);
    }
  }

  /** The error line a private handler logs when its service call fails:
      the fixed sentence naming the operation, then getMessage of the
      failure. */
  function FailureLine(operation: string, message: string): string {
    "Failure processing an order " + operation + " message. Error: " + FailureLog(message)
  }

  /** The text logged for an inbound event without an action. */
  const MissingAction := "Action is required to complete the operation"

  class OrderConsumer {
    const service: OrderService

    constructor (service: OrderService)
      ensures this.service == service
    {
      this.service := service;
    }

    /** listener: drops an event without an action; otherwise replays it as
        exactly one create, update or delete. A failure of that call is
        logged and absorbed: the listener returns normally and the store
        and the outbound channel stay as they were. The result is the
        error text logged, if any. */
    method Listener(input: OrderInput, now: Timestamp) returns (logged: Option<string>)
      requires service.Valid()
      modifies service, service.producer
      ensures service.Valid()
      ensures input.action.None? ==>
        && logged == Some(MissingAction)
        && service.store == old(service.store)
        && service.producer.channel == old(service.producer.channel)
      ensures input.action == Some(ActionTypes.Create) ==>
        var check := ValidateInsert(ToInsertRequest(input));
        && (check.Fail? ==>
              && logged == Some(FailureLine("creation", check.message))
              && service.store == old(service.store)
              && service.producer.channel == old(service.producer.channel))
        && (check.Pass? ==>
              && logged == None
              && |service.producer.channel| == |old(service.producer.channel)| + 1
              && var event := service.producer.channel[|old(service.producer.channel)|];
              && service.producer.channel == old(service.producer.channel) + [event]
              && event.action == ActionTypes.Create
              && Some(event.customerId) == input.customerId
              && event.meals == input.meals
              && Some(event.status) == input.status
              && event.creationDate == now
              && event.id !in old(service.store) && IsNotBlank(Some(event.id))
              && service.store == old(service.store)[event.id := Described(event)])
      ensures input.action == Some(ActionTypes.Update) ==>
        var check := ValidateUpdate(ToUpdateRequest(input));
        && (check.Fail? ==>
              && logged == Some(FailureLine("update", check.message))
              && service.store == old(service.store)
              && service.producer.channel == old(service.producer.channel))
        && (check.Pass? && input.id.value !in old(service.store) ==>
              && logged == Some(FailureLine("update", "Order not found"))
              && service.store == old(service.store)
              && service.producer.channel == old(service.producer.channel))
        && (check.Pass? && input.id.value in old(service.store) ==>
              var stored := old(service.store)[input.id.value];
              var saved := Overwrite(stored, input.meals, input.status.value);
              && logged == None
              && saved.customerId == stored.customerId
              && service.store == old(service.store)[input.id.value := saved]
              && service.producer.channel == old(service.producer.channel) + [Snapshot(saved, ActionTypes.Update)])
      ensures input.action == Some(ActionTypes.Delete) ==>
        && (!IsNotBlank(input.id) ==>
              && logged == Some(FailureLine("delete", "Id is required"))
              && service.store == old(service.store)
              && service.producer.channel == old(service.producer.channel))
        && (IsNotBlank(input.id) && input.id.value !in old(service.store) ==>
              && logged == Some(FailureLine("delete", "Order not found"))
              && service.store == old(service.store)
              && service.producer.channel == old(service.producer.channel))
        && (IsNotBlank(input.id) && input.id.value in old(service.store) ==>
              && logged == None
              && service.store == old(service.store) - {input.id.value}
              && service.producer.channel ==
                   old(service.producer.channel) + [Snapshot(old(service.store)[input.id.value], ActionTypes.Delete)])
    {
      if input.action.None? {
        return Some(MissingAction);
      }
      match input.action.value
      case Create => logged := CreateFrom(input, now);
      case Update => logged := UpdateFrom(input);
      case Delete => logged := DeleteFrom(input);
    }

    /** The private create: maps the payload to a create request and calls
        the service, logging a failure instead of raising it. */
    method CreateFrom(input: OrderInput, now: Timestamp) returns (logged: Option<string>)
      requires service.Valid()
      modifies service, service.producer
      ensures service.Valid()
      ensures ValidateInsert(ToInsertRequest(input)).Fail? ==>
        && logged == Some(FailureLine("creation", ValidateInsert(ToInsertRequest(input)).message))
        && service.store == old(service.store)
        && service.producer.channel == old(service.producer.channel)
      ensures ValidateInsert(ToInsertRequest(input)).Pass? ==>
        && logged == None
        && |service.producer.channel| == |old(service.producer.channel)| + 1
        && var event := service.producer.channel[|old(service.producer.channel)|];
        && service.producer.channel == old(service.producer.channel) + [event]
        && event.action == ActionTypes.Create
        && Some(event.customerId) == input.customerId
        && event.meals == input.meals
        && Some(event.status) == input.status
        && event.creationDate == now
        && event.id !in old(service.store) && IsNotBlank(Some(event.id))
        && service.store == old(service.store)[event.id := Described(event)]
    {
      var request := ToInsertRequest(input);
      var result := service.Create(request, now);
      logged := if result.Err? then Some(FailureLine("creation", result.message)) else None;
    }

    /** The private update: maps the payload, id included, to an update
        request and calls the service, logging a failure instead of raising
        it. */
    method UpdateFrom(input: OrderInput) returns (logged: Option<string>)
      requires service.Valid()
      modifies service, service.producer
      ensures service.Valid()
      ensures ValidateUpdate(ToUpdateRequest(input)).Fail? ==>
        && logged == Some(FailureLine("update", ValidateUpdate(ToUpdateRequest(input)).message))
        && service.store == old(service.store)
        && service.producer.channel == old(service.producer.channel)
      ensures ValidateUpdate(ToUpdateRequest(input)).Pass? && input.id.value !in old(service.store) ==>
        && logged == Some(FailureLine("update", "Order not found"))
        && service.store == old(service.store)
        && service.producer.channel == old(service.producer.channel)
      ensures ValidateUpdate(ToUpdateRequest(input)).Pass? && input.id.value in old(service.store) ==>
        var saved := Overwrite(old(service.store)[input.id.value], input.meals, input.status.value);
        && logged == None
        && service.store == old(service.store)[input.id.value := saved]
        && service.producer.channel == old(service.producer.channel) + [Snapshot(saved, ActionTypes.Update)]
    {
      var request := ToUpdateRequest(input);
      var result := service.Update(request);
      logged := if result.Err? then Some(FailureLine("update", result.message)) else None;
    }

    /** The private delete: calls the service with the payload's id alone,
        logging a failure instead of raising it. */
    method DeleteFrom(input: OrderInput) returns (logged: Option<string>)
      requires service.Valid()
      modifies service, service.producer
      ensures service.Valid()
      ensures !IsNotBlank(input.id) ==>
        && logged == Some(FailureLine("delete", "Id is required"))
        && service.store == old(service.store)
        && service.producer.channel == old(service.producer.channel)
      ensures IsNotBlank(input.id) && input.id.value !in old(service.store) ==>
        && logged == Some(FailureLine("delete", "Order not found"))
        && service.store == old(service.store)
        && service.producer.channel == old(service.producer.channel)
      ensures IsNotBlank(input.id) && input.id.value in old(service.store) ==>
        && logged == None
        && service.store == old(service.store) - {input.id.value}
        && service.producer.channel ==
             old(service.producer.channel) + [Snapshot(old(service.store)[input.id.value], ActionTypes.Delete)]
    {
      var result := service.Delete(input.id);
      logged := if result.Err? then Some(FailureLine("delete", result.message)) else None;
    }
  }
}

/** The order aggregate and the shapes it travels in: the stored record
    (which is also the response shape, field for field), the two request
    shapes, and the outbound and inbound event payloads. */
module Orders {
  import opened Common
  import opened OrderStatusTypes
  import MealTypes
  import ActionTypes

  /** One meal entry embedded in an order; the services never inspect it. */
  datatype MealLine = MealLine(
    id: Option<string>,
    creationDate: Option<Timestamp>,
    description: Option<string>,
    note: Option<string>,
    quantity: Option<int>,
    mealType: Option<MealTypes.MealType>)

  /** A persisted order, and equally the order response: the same five
      fields. The id is assigned by the store and the creation date by the
      service; validation guarantees a customer id and a status, but the
      meal list may be null after an update. */
  datatype Order = Order(
    id: string,
    creationDate: Timestamp,
    customerId: string,
    meals: Option<seq<MealLine>>,
    status: OrderStatusType)

  /** The record invariant every order the service stores keeps: a
      non-blank customer id and a status other than the ERROR sentinel. */
  predicate Persistable(order: Order) {
    IsNotBlank(Some(order.customerId)) && order.status != Error
  }

  /** The body of a create request. */
  datatype OrderInsertRequest = OrderInsertRequest(
    customerId: Option<string>,
    meals: Option<seq<MealLine>>,
    status: Option<OrderStatusType>)

  /** The body of an update request. */
  datatype OrderUpdateRequest = OrderUpdateRequest(
    id: Option<string>,
    meals: Option<seq<MealLine>>,
    status: Option<OrderStatusType>)

  /** The outbound payload: an order response plus the action that produced it. */
  datatype OrderEvent = OrderEvent(
    id: string,
    creationDate: Timestamp,
    customerId: string,
    meals: Option<seq<MealLine>>,
    status: OrderStatusType,
    action: ActionTypes.ActionType)

  /** The inbound payload: order fields, any of them possibly null, and an
      optional action. */
  datatype OrderInput = OrderInput(
    id: Option<string>,
    action: Option<ActionTypes.ActionType>,
    creationDate: Option<Timestamp>,
    customerId: Option<string>,
    meals: Option<seq<MealLine>>,
    status: Option<OrderStatusType>)

  /** The order an event describes: its fields without the action tag. */
  function Described(event: OrderEvent): Order {
    Order(event.id, event.creationDate, event.customerId, event.meals, event.status)
  }

  /** The producer's field copy of a response into an outbound payload,
      followed by setAction: the event describes exactly the response and
      carries the given action. */
  function Snapshot(response: Order, action: ActionTypes.ActionType): (event: OrderEvent)
    ensures Described(event) == response && event.action == action
  {
    OrderEvent(response.id, response.creationDate, response.customerId, response.meals, response.status, action)
  }

  /** The mapper's copy of an inbound payload into a create request. */
  function ToInsertRequest(input: OrderInput): OrderInsertRequest {
    OrderInsertRequest(input.customerId, input.meals, input.status)
  }

  /** The mapper's copy of an inbound payload into an update request. */
  function ToUpdateRequest(input: OrderInput): OrderUpdateRequest {
    OrderUpdateRequest(input.id, input.meals, input.status)
  }
}

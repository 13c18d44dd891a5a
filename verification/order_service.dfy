/** The order command service: validates each mutation, applies it to the
    order store, then publishes one event describing the result. */
module OrderServices {
  import opened Common
  import opened OrderStatusTypes
  import opened Orders
  import opened OrderProducers
  import ActionTypes

  /** A status the service accepts: present and not the ERROR sentinel. */
  predicate IsValidStatus(status: Option<OrderStatusType>) {
    status.Some? && status.value != Error
  }

  /** validateInsert: customer id, then meals, then status; the first
      failing check decides the message and the later ones are not looked
      at. */
  function ValidateInsert(request: OrderInsertRequest): (c: Check)
    ensures c.Pass? <==>
      IsNotBlank(request.customerId) && request.meals.Some? && request.meals.value != [] && IsValidStatus(request.status)
    ensures !IsNotBlank(request.customerId) ==> c == Fail("Customer Id is required")
    ensures IsNotBlank(request.customerId) && (request.meals.None? || request.meals.value == []) ==>
      c == Fail("Meals are required")
    ensures IsNotBlank(request.customerId) && request.meals.Some? && request.meals.value != [] && !IsValidStatus(request.status) ==>
      c == Fail("Invalid order status")
    ensures c.Fail? ==> c.message in {"Customer Id is required", "Meals are required", "Invalid order status"}
  {
    if !IsNotBlank(request.customerId) then Fail("Customer Id is required")
    else if request.meals.None? || request.meals.value == [] then Fail("Meals are required")
    else if !IsValidStatus(request.status) then Fail("Invalid order status")
    else Pass
  }

  /** validateUpdate: id, then status. The meal list is not checked at all,
      so an update may leave an order with no meals, or a null list. */
  function ValidateUpdate(request: OrderUpdateRequest): (c: Check)
    ensures c.Pass? <==> IsNotBlank(request.id) && IsValidStatus(request.status)
    ensures !IsNotBlank(request.id) ==> c == Fail("Id is required")
    ensures IsNotBlank(request.id) && !IsValidStatus(request.status) ==> c == Fail("Invalid order status")
    ensures c.Fail? ==> c.message in {"Id is required", "Invalid order status"}
  {
    if !IsNotBlank(request.id) then Fail("Id is required")
    else if !IsValidStatus(request.status) then Fail("Invalid order status")
    else Pass
  }

  /** The entity create builds from a validated request: the request's
      customer id, meals and status, the given creation date, and the id
      the store assigns. */
  function NewOrder(id: string, now: Timestamp, request: OrderInsertRequest): (order: Order)
    requires ValidateInsert(request).Pass?
    ensures Persistable(order)
  {
    Order(id, now, request.customerId.value, request.meals, request.status.value)
  }

  /** The private update's in-place edits on the loaded entity: the meal
      list and the status are replaced wholesale; id, customer id and
      creation date stay as they were. */
  function Overwrite(order: Order, meals: Option<seq<MealLine>>, status: OrderStatusType): (updated: Order)
    ensures updated.id == order.id && updated.customerId == order.customerId
    ensures updated.creationDate == order.creationDate
    ensures updated.meals == meals && updated.status == status
    ensures Persistable(order) && status != Error ==> Persistable(updated)
  {
    order.(meals := meals, status := status)
  }

  /** Applying the same update twice leaves the record as one application
      does. */
  lemma OverwriteIdempotent(order: Order, meals: Option<seq<MealLine>>, status: OrderStatusType)
    ensures Overwrite(Overwrite(order, meals, status), meals, status) == Overwrite(order, meals, status)
  {
  }

  /** Updates overwrite rather than accumulate: the later one wins
      entirely. */
  lemma OverwriteLastWins(order: Order, meals1: Option<seq<MealLine>>, status1: OrderStatusType,
                          meals2: Option<seq<MealLine>>, status2: OrderStatusType)
    ensures Overwrite(Overwrite(order, meals1, status1), meals2, status2) == Overwrite(order, meals2, status2)
  {
  }

  /** Replaying a successful update on the store it produced changes
      nothing more: the second save writes the record already there. */
  lemma UpdateIdempotentOnStore(store: map<string, Order>, request: OrderUpdateRequest)
    requires ValidateUpdate(request).Pass? && request.id.value in store
    ensures var id := request.id.value;
            var once := store[id := Overwrite(store[id], request.meals, request.status.value)];
            once[id := Overwrite(once[id], request.meals, request.status.value)] == once
  {
    var id := request.id.value;
    OverwriteIdempotent(store[id], request.meals, request.status.value);
  }

  class OrderService {
    const producer: OrderProducer
    /** The order collection, keyed by id. */
    var store: map<string, Order>

    /** Every record is filed under its own id, which is never blank, and
        keeps the record invariant. */
    ghost predicate Valid()
      reads this
    {
      forall id | id in store :: store[id].id == id && IsNotBlank(Some(id)) && Persistable(store[id])
    }

    constructor (producer: OrderProducer)
      ensures this.producer == producer && store == map[] && Valid()
    {
      this.producer := producer;
      store := map[];
    }

    /** findAll: every stored order. */
    method FindAll() returns (r: set<Order>)
      requires Valid()
      ensures forall order :: order in r <==> order.id in store && store[order.id] == order
    {
      r := store.Values;
    }

    /** findByCustomerId: exactly the orders of that customer; none is not
        an error. */
    method FindByCustomerId(customerId: Option<string>) returns (r: Result<set<Order>>)
      ensures r.Err? <==> !IsNotBlank(customerId)
      ensures r.Err? ==> r.message == "Customer id is required"
      ensures r.Ok? ==> forall order :: order in r.value <==> order in store.Values && order.customerId == customerId.value
    {
      if !IsNotBlank(customerId) {
        return Err("Customer id is required");
      }
      r := Ok(set order | order in store.Values && order.customerId == customerId.value);
    }

    /** findByStatus: exactly the orders in that status; none is not an
        error. */
    method FindByStatus(status: Option<OrderStatusType>) returns (r: Result<set<Order>>)
      ensures r.Err? <==> !IsValidStatus(status)
      ensures r.Err? ==> r.message == "Invalid order type"
      ensures r.Ok? ==> forall order :: order in r.value <==> order in store.Values && order.status == status.value
    {
      if !IsValidStatus(status) {
        return Err("Invalid order type");
      }
      r := Ok(set order | order in store.Values && order.status == status.value);
    }

    /** findById: the stored order, or a failure for a blank or unknown id. */
    method FindById(id: Option<string>) returns (r: Result<Order>)
      requires Valid()
      ensures !IsNotBlank(id) ==> r == Err("Id is required")
      ensures IsNotBlank(id) && id.value !in store ==> r == Err("Order not found")
      ensures IsNotBlank(id) && id.value in store ==> r == Ok(store[id.value])
      ensures r.Ok? ==> id == Some(r.value.id) && r.value.id in store && store[r.value.id] == r.value
    {
      if !IsNotBlank(id) {
        return Err("Id is required");
      }
      if id.value !in store {
        return Err("Order not found");
      }
      r := Ok(store[id.value]);
    }

    /** create: on a valid request, stores one new order under a fresh id,
        publishes it with action CREATE and returns it; on an invalid one,
        fails with the first failing check's message and changes nothing. */
    method Create(request: OrderInsertRequest, now: Timestamp) returns (r: Result<Order>)
      requires Valid()
      modifies this, producer
      ensures Valid()
      ensures ValidateInsert(request).Fail? ==>
        && r == Err(ValidateInsert(request).message)
        && store == old(store) && producer.channel == old(producer.channel)
      ensures ValidateInsert(request).Pass? ==>
        && r.Ok? && r.value.id !in old(store) && IsNotBlank(Some(r.value.id))
        && r.value == NewOrder(r.value.id, now, request)
        && store == old(store)[r.value.id := r.value]
        && producer.channel == old(producer.channel) + [Snapshot(r.value, ActionTypes.Create)]
    {
      var check := ValidateInsert(request);
      if check.Fail? {
        return Err(check.message);
      }
      var id := NewKey(store.Keys);
      var entity := NewOrder(id, now, request);
      store := store[id := entity];
      var response := producer.Output(entity, ActionTypes.Create);
      r := Ok(response);
    }

    /** update: on a valid request for a stored order, overwrites its meals
        and status, saves it, publishes it with action UPDATE and returns
        it; otherwise fails and changes nothing. */
    method Update(request: OrderUpdateRequest) returns (r: Result<Order>)
      requires Valid()
      modifies this, producer
      ensures Valid()
      ensures ValidateUpdate(request).Fail? ==>
        && r == Err(ValidateUpdate(request).message)
        && store == old(store) && producer.channel == old(producer.channel)
      ensures ValidateUpdate(request).Pass? && request.id.value !in old(store) ==>
        && r == Err("Order not found")
        && store == old(store) && producer.channel == old(producer.channel)
      ensures ValidateUpdate(request).Pass? && request.id.value in old(store) ==>
        && r == Ok(Overwrite(old(store)[request.id.value], request.meals, request.status.value))
        && store == old(store)[request.id.value := r.value]
        && producer.channel == old(producer.channel) + [Snapshot(r.value, ActionTypes.Update)]
    {
      var check := ValidateUpdate(request);
      if check.Fail? {
        return Err(check.message);
      }
      var id := request.id.value;
      if id !in store {
        return Err("Order not found");
      }
      var saved := UpdateOrder(store[id], request);
      var response := producer.Output(saved, ActionTypes.Update);
      r := Ok(response);
    }

    /** delete: on a non-blank id of a stored order, removes exactly that
        order and publishes the record as it was with action DELETE;
        otherwise fails and changes nothing. */
    method Delete(id: Option<string>) returns (r: Result<()>)
      requires Valid()
      modifies this, producer
      ensures Valid()
      ensures !IsNotBlank(id) ==>
        && r == Err("Id is required")
        && store == old(store) && producer.channel == old(producer.channel)
      ensures IsNotBlank(id) && id.value !in old(store) ==>
        && r == Err("Order not found")
        && store == old(store) && producer.channel == old(producer.channel)
      ensures IsNotBlank(id) && id.value in old(store) ==>
        && r == Ok(())
        && store == old(store) - {id.value}
        && producer.channel == old(producer.channel) + [Snapshot(old(store)[id.value], ActionTypes.Delete)]
    {
      if !IsNotBlank(id) {
        return Err("Id is required");
      }
      if id.value !in store {
        return Err("Order not found");
      }
      DeleteOrder(store[id.value]);
      r := Ok(());
    }

    /** The private update: edits the loaded order and saves it over the
        stored one. */
    method UpdateOrder(order: Order, request: OrderUpdateRequest) returns (saved: Order)
      requires Valid() && ValidateUpdate(request).Pass?
      requires order.id in store && store[order.id] == order
      modifies this
      ensures Valid()
      ensures saved == Overwrite(order, request.meals, request.status.value)
      ensures store == old(store)[order.id := saved]
    {
      saved := Overwrite(order, request.meals, request.status.value);
      store := store[saved.id := saved];
    }

    /** The private delete: takes the response snapshot first, removes the
        order, then publishes the snapshot with action DELETE. */
    method DeleteOrder(order: Order)
      requires Valid()
      requires order.id in store && store[order.id] == order
      modifies this, producer
      ensures Valid()
      ensures store == old(store) - {order.id}
      ensures producer.channel == old(producer.channel) + [Snapshot(order, ActionTypes.Delete)]
    {
      var response := order;
      store := store - {order.id};
      var published := producer.Output(response, ActionTypes.Delete);
    }
  }
}

/** The event producer: publishes an order response, tagged with an action,
    on the outbound channel. */
module OrderProducers {
  import opened Orders
  import ActionTypes

  class OrderProducer {
    /** Every message sent on the outbound channel, oldest first. */
    var channel: seq<OrderEvent>

    constructor ()
      ensures channel == []
    {
      channel := [];
    }

    /** The channel binding's send: the message joins the channel. Whether
        the binding reports it as accepted is deliberately left out of the
        contract, so no caller can rely on that flag. */
    method Send(message: OrderEvent) returns (accepted: bool)
      modifies this
      ensures channel == old(channel) + [message]
    {
      channel := channel + [message];
      accepted := true;
    }

    /** output: appends one snapshot of the response, tagged with the
        action, and hands back the very response it was given, whatever
        the send reported. */
    method Output(response: Order, action: ActionTypes.ActionType) returns (r: Order)
      modifies this
      ensures r == response
      ensures channel == old(channel) + [Snapshot(response, action)]
    {
      var output := Snapshot(response, action);
      var accepted := Send(output);
      r := response;
    }
  }
}

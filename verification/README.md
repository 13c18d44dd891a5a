# good-food order pipeline in Dafny

This project models the command side of the good-food food-ordering backend:

- the **order service**: validated find, create, update and delete over the order collection. Every successful mutation publishes one order event tagged CREATE, UPDATE or DELETE;
- the **order producer**, which snapshots an order response, tags it with an action and sends it on the outbound channel;
- the **order consumer**, which replays inbound order events through the order service and logs any failure in place of raising it;
- the **customer and meal services**: the same validate → look up → insert / overwrite / delete shape over their own collections, with no events;
- the three **enumerations** (order status, meal type, action) and their `safeValueOf` parsers.

Modelling choices:

- Each document collection is a `map` from id to record, held in a field of its service class. `Valid()` states the record invariant that validation guarantees: each record is filed under its own id, and its required fields are non-blank or not ERROR.
- A nullable Java reference is an `Option`. A `BusinessException` is the `Err` case of a `Result`, carrying its message. A validation step is a `Check` that names the first failing message.
- The outbound channel is the producer's `channel: seq<OrderEvent>`. The consumer's log output is the text its `Listener` returns.
- The clock (`LocalDateTime.now()`) is a `Timestamp` parameter. The store's id generator is `Common.NewKey`, which returns a key not yet in use.
- The model assumes nothing makes a customer's suid unique: `create` never checks it, and the customer entity, where a unique index would be declared, is not part of this model. The model's `findBySuid` and `deleteBySuid` therefore work on any one of the customers that carry the suid.
- Each module sits in a file of its own:

| file | module | models |
|---|---|---|
| `common.dfy` | `Common` | `isNotBlank` and whitespace, the `toMap` cache builder, fresh ids |
| `order_status_type.dfy`, `meal_type.dfy`, `action_type.dfy` | `OrderStatusTypes`, `MealTypes`, `ActionTypes` | the enumerations |
| `orders.dfy` | `Orders` | the order record, the request shapes, the inbound and outbound payloads, and the field copies between them |
| `order_producer.dfy` | `OrderProducers` | `OrderProducer` |
| `order_service.dfy` | `OrderServices` | `OrderService` |
| `order_consumer.dfy` | `OrderConsumers` | `OrderConsumer` and `getMessage` |
| `customer_service.dfy`, `meal_service.dfy` | `CustomerServices`, `MealServices` | the two CRUD services |

Publishing: `output` calls `send` eagerly and ignores only its boolean result, and nothing in `create`, `update` or the private `delete` catches an exception from `send`. The model's `Send` cannot fail, and `Output`'s result does not depend on the flag `Send` returns.

## Model

| member | source | states |
|---|---|---|
| Common.NotBlankWitness | src/main/java/io/good/food/service/OrderService.java:48 | `isNotBlank` holds exactly when the string is non-null and has a character that is not whitespace; null and "" are blank |
| Common.IndexBy | src/main/java/io/good/food/dto/type/OrderStatusType.java:21-22 | the `toMap` cache over distinct keys files every element under its own name, and every entry is an element filed under its name |
| Common.NewKey | src/main/java/io/good/food/service/OrderService.java:75 | the id the store assigns on insert is not already a key and is not blank |
| OrderStatusTypes.SafeValueOf | src/main/java/io/good/food/dto/type/OrderStatusType.java:24-27 | total: the result is always one of the eight constants, and a non-ERROR result is the constant whose name was given |
| OrderStatusTypes.NamesDistinct | src/main/java/io/good/food/dto/type/OrderStatusType.java:12-19 | exactly eight constants, every constant listed, and no two constants share a name |
| OrderStatusTypes.RoundTrip | src/main/java/io/good/food/dto/type/OrderStatusType.java:21-26 | parsing a constant's own name gives that constant back |
| OrderStatusTypes.UnknownIsError | src/main/java/io/good/food/dto/type/OrderStatusType.java:26 | the result is ERROR if and only if the input is null, is "ERROR", or names no constant |
| MealTypes.SafeValueOf | src/main/java/io/good/food/dto/type/MealType.java:23-26 | total: the result is always one of the seven constants, and a non-ERROR result is the constant whose name was given |
| MealTypes.NamesDistinct | src/main/java/io/good/food/dto/type/MealType.java:12-18 | exactly seven constants, ERROR among them, every constant listed, and no two constants share a name |
| MealTypes.RoundTrip | src/main/java/io/good/food/dto/type/MealType.java:20-25 | parsing a constant's own name gives that constant back |
| MealTypes.UnknownIsError | src/main/java/io/good/food/dto/type/MealType.java:25 | the result is ERROR if and only if the input is null, is "ERROR", or names no constant |
| ActionTypes.SafeValueOf | src/main/java/io/good/food/dto/type/ActionType.java:19-22 | a present result is the constant whose name was given |
| ActionTypes.NamesDistinct | src/main/java/io/good/food/dto/type/ActionType.java:12-14 | exactly three constants, with no ERROR sentinel, every constant listed, and no two constants share a name |
| ActionTypes.RoundTrip | src/main/java/io/good/food/dto/type/ActionType.java:16-21 | parsing CREATE, UPDATE or DELETE by name gives that constant back |
| ActionTypes.PresentIffKnown | src/main/java/io/good/food/dto/type/ActionType.java:12-21 | the result is present if and only if the input is one of the three names; anything else gives absent, not a fallback |
| Orders.Snapshot | src/main/java/io/good/food/streaming/OrderProducer.java:28-29 | the outbound payload copies the response's id, creation date, customer id, meals and status, and carries the given action |
| OrderProducers.OrderProducer.Send | src/main/java/io/good/food/streaming/OrderProducer.java:34 | sending appends exactly that message to the channel; the accepted flag is left unconstrained |
| OrderProducers.OrderProducer.Output | src/main/java/io/good/food/streaming/OrderProducer.java:27-36 | returns the very response it was given, whatever `send` reports, and appends exactly one snapshot of it tagged with the action; no store is in its frame |
| OrderServices.ValidateInsert | src/main/java/io/good/food/service/OrderService.java:112-116 | passes if and only if the customer id is non-blank, the meals are non-null and non-empty, and the status is non-null and not ERROR; otherwise it fails with the message of the first failing check, in that order |
| OrderServices.ValidateUpdate | src/main/java/io/good/food/service/OrderService.java:118-121 | passes if and only if the id is non-blank and the status is valid; the meals are never checked; it fails with "Id is required" first, then "Invalid order status" |
| OrderServices.NewOrder | src/main/java/io/good/food/service/OrderService.java:72-73 | the entity built from a validated request keeps the record invariant |
| OrderServices.Overwrite | src/main/java/io/good/food/service/OrderService.java:97-99 | meals and status are replaced wholesale; id, customer id and creation date are unchanged; the record invariant is kept for a non-ERROR status |
| OrderServices.OverwriteIdempotent | src/main/java/io/good/food/service/OrderService.java:97-99 | applying the same update twice gives the record one application gives |
| OrderServices.OverwriteLastWins | src/main/java/io/good/food/service/OrderService.java:97-99 | updates overwrite rather than accumulate: of two updates, only the later one shows |
| OrderServices.UpdateIdempotentOnStore | src/main/java/io/good/food/service/OrderService.java:97-103 | replaying a successful update on the store it produced leaves the store as it is |
| OrderServices.OrderService.FindAll | src/main/java/io/good/food/service/OrderService.java:42-45 | returns exactly the stored orders |
| OrderServices.OrderService.FindByCustomerId | src/main/java/io/good/food/service/OrderService.java:47-52 | fails with "Customer id is required" if and only if the customer id is blank; otherwise returns exactly the stored orders of that customer, and an empty result is not an error |
| OrderServices.OrderService.FindByStatus | src/main/java/io/good/food/service/OrderService.java:54-59 | fails with "Invalid order type" if and only if the status is null or ERROR; otherwise returns exactly the stored orders in that status |
| OrderServices.OrderService.FindById | src/main/java/io/good/food/service/OrderService.java:61-67 | "Id is required" for a blank id; "Order not found" for an unknown one; for a stored id, exactly the record stored under it; nothing changes |
| OrderServices.OrderService.Create | src/main/java/io/good/food/service/OrderService.java:69-78 | an invalid request fails with the first failing check's message, storing nothing and sending nothing; a valid one adds exactly one record under a fresh, non-blank id (so FindById, Update and Delete accept it), built from the request and the clock, returns it, and appends exactly one CREATE event describing it |
| OrderServices.OrderService.Update | src/main/java/io/good/food/service/OrderService.java:80-87 | validation messages first, then "Order not found" for an unknown id, each changing nothing; on success the stored record is overwritten in place, returned, and announced by exactly one UPDATE event |
| OrderServices.OrderService.Delete | src/main/java/io/good/food/service/OrderService.java:89-95 | "Id is required" or "Order not found", changing nothing; on success removes exactly that key and appends one DELETE event carrying the record as it was before the delete |
| OrderServices.OrderService.UpdateOrder | src/main/java/io/good/food/service/OrderService.java:97-103 | the loaded order is edited and saved over the stored one; nothing else in the store changes |
| OrderServices.OrderService.DeleteOrder | src/main/java/io/good/food/service/OrderService.java:105-110 | removes exactly that order, then publishes the pre-delete snapshot with action DELETE |
| OrderConsumers.RootCause | src/main/java/io/good/food/streaming/OrderConsumer.java:80 | the root cause lies on the throwable's cause chain and has no cause of its own |
| OrderConsumers.GetMessage | src/main/java/io/good/food/streaming/OrderConsumer.java:75-82 | "" for a null throwable; the root cause's message when it is not blank; otherwise the throwable's own string form |
| OrderConsumers.BusinessFailureMessage | src/main/java/io/good/food/streaming/OrderConsumer.java:75-82 | a service failure with a non-blank message is reported by that message alone |
| OrderConsumers.WrappedFailureMessage | src/main/java/io/good/food/streaming/OrderConsumer.java:80-81 | a wrapped failure is reported by the innermost message, not by the wrapper's |
| OrderConsumers.ServiceMessagesLoggedVerbatim | src/main/java/io/good/food/streaming/OrderConsumer.java:53-54 | each of the five messages `create`, `update` and `delete` raise, the only failures the consumer receives, appears verbatim in the consumer's log line |
| OrderConsumers.OrderConsumer.Listener | src/main/java/io/good/food/streaming/OrderConsumer.java:36-48 | with no action it logs the fixed message, calls nothing and sends nothing. Otherwise it dispatches to exactly one branch per action. CREATE gives one event with the input's customer id, meals and status; UPDATE gives one event whose customer id is the stored one; DELETE uses the input's id only. Every failure is logged and leaves the store and the channel unchanged |
| OrderConsumers.OrderConsumer.CreateFrom | src/main/java/io/good/food/streaming/OrderConsumer.java:50-57 | the input's customer id, meals and status drive one create: on success one CREATE event mirrors them and the new record is what the event describes; on failure the creation log line carries the message and nothing changes |
| OrderConsumers.OrderConsumer.UpdateFrom | src/main/java/io/good/food/streaming/OrderConsumer.java:59-66 | the input's id, meals and status drive one update: on success the stored order is overwritten and one UPDATE event carries it; on failure the update log line carries the message and nothing changes |
| OrderConsumers.OrderConsumer.DeleteFrom | src/main/java/io/good/food/streaming/OrderConsumer.java:68-73 | the input's id alone drives one delete: on success exactly that key goes and one DELETE event carries the old record; on failure the delete log line carries the message and nothing changes |
| CustomerServices.ValidateInsert | src/main/java/io/good/food/service/CustomerService.java:83-87 | passes if and only if name, suid and surname are all non-blank; otherwise it fails with the message of the first blank one, in that order |
| CustomerServices.ValidateUpdate | src/main/java/io/good/food/service/CustomerService.java:89-94 | passes if and only if id, name, suid and surname are all non-blank; otherwise it fails with the message of the first blank one, in that order |
| CustomerServices.NewCustomer | src/main/java/io/good/food/service/CustomerService.java:51-52 | the entity built from a validated request keeps the record invariant |
| CustomerServices.Overwrite | src/main/java/io/good/food/service/CustomerService.java:74-77 | name, suid and surname are replaced by the request's; id and creation date are unchanged; the record invariant is kept |
| CustomerServices.OverwriteIdempotent | src/main/java/io/good/food/service/CustomerService.java:74-77 | applying the same update twice gives the record one application gives |
| CustomerServices.CustomerService.FindById | src/main/java/io/good/food/service/CustomerService.java:32-38 | "Id is required" for a blank id; "Customer not found" for an unknown one; for a stored id, exactly the record stored under it |
| CustomerServices.CustomerService.LookupBySuid | src/main/java/io/good/food/service/CustomerService.java:43 | absent if and only if no stored customer has the suid; otherwise a stored customer with that suid |
| CustomerServices.CustomerService.FindBySuid | src/main/java/io/good/food/service/CustomerService.java:40-46 | "Suid is required" for a blank suid; "Customer not found" if and only if nobody has it; whenever a stored customer has it, success with a stored customer that has the suid |
| CustomerServices.CustomerService.Create | src/main/java/io/good/food/service/CustomerService.java:48-56 | an invalid request fails with the first failing check's message and stores nothing; a valid one adds exactly one record under a fresh, non-blank id, built from the request and the clock, and returns it |
| CustomerServices.CustomerService.Update | src/main/java/io/good/food/service/CustomerService.java:58-64 | validation messages first, then "Customer not found", each changing nothing; on success the stored record is overwritten and returned |
| CustomerServices.CustomerService.DeleteBySuid | src/main/java/io/good/food/service/CustomerService.java:66-72 | "Suid is required" for a blank suid, "Customer not found" when nobody has it, and every failure changes nothing; whenever a stored customer has the suid it succeeds, and exactly one record goes, one that had the suid |
| CustomerServices.CustomerService.UpdateCustomer | src/main/java/io/good/food/service/CustomerService.java:74-81 | the loaded customer is edited and saved over the stored one; nothing else changes |
| MealServices.ValidateInsert | src/main/java/io/good/food/service/MealService.java:84-87 | passes if and only if the description is non-blank and the type is non-null and not ERROR; the note is never checked; description is checked first |
| MealServices.ValidateUpdate | src/main/java/io/good/food/service/MealService.java:89-93 | passes if and only if id and description are non-blank and the type is valid; it fails with the message of the first failing check, in that order |
| MealServices.NewMeal | src/main/java/io/good/food/service/MealService.java:51-52 | the entity built from a validated request keeps the record invariant |
| MealServices.Overwrite | src/main/java/io/good/food/service/MealService.java:74-77 | description, note and type are replaced by the request's; id and creation date are unchanged; the record invariant is kept |
| MealServices.OverwriteIdempotent | src/main/java/io/good/food/service/MealService.java:74-77 | applying the same update twice gives the record one application gives |
| MealServices.MealService.FindAll | src/main/java/io/good/food/service/MealService.java:35-38 | returns exactly the stored meals |
| MealServices.MealService.FindById | src/main/java/io/good/food/service/MealService.java:40-46 | "Id is required" for a blank id; "Meal not found" for an unknown one; for a stored id, exactly the record stored under it |
| MealServices.MealService.Create | src/main/java/io/good/food/service/MealService.java:48-56 | an invalid request fails with the first failing check's message and stores nothing; a valid one adds exactly one record under a fresh, non-blank id, built from the request and the clock, and returns it |
| MealServices.MealService.Update | src/main/java/io/good/food/service/MealService.java:58-64 | validation messages first, then "Meal not found", each changing nothing; on success the stored record is overwritten and returned |
| MealServices.MealService.Delete | src/main/java/io/good/food/service/MealService.java:66-72 | "Id is required" or "Meal not found", changing nothing; on success removes exactly that key |
| MealServices.MealService.UpdateMeal | src/main/java/io/good/food/service/MealService.java:74-81 | the loaded meal is edited and saved over the stored one; nothing else changes |

## Left out

- Controllers: the HTTP endpoints only delegate to the services, and their status codes are framework annotations.
- Reactive execution: Mono/Flux chaining, `switchIfEmpty` and the consumer's `toProcessor().block()`. Each operation is a synchronous method returning a `Result`, and concurrent requests and interleavings are not modelled.
- Store failures (connection errors, write conflicts) are not modelled; every store operation succeeds.
- The 600-second expiry index on the order's creation date: it is time-driven storage behaviour, so records never disappear on their own in the model.
- Store iteration order: the finders return sets, so the order in which records stream out is not modelled.
- Common.NewKey: does not produce ObjectId-shaped strings, because only freshness matters to the services.
- CustomerServices.CustomerService.LookupBySuid: when several customers share a suid, it returns one of them. The repository query would instead fail with a non-unique-result error, which is not modelled.
- OrderConsumers.RootCause: follows commons-lang3 3.10 and later, where a throwable without a cause is its own root. In earlier versions `getRootCause` returns null there and the log lambda would fail; the library version is not part of this model.
- Logging: only the text of each error line is modelled (the consumer's returned `logged` value). Log levels and the logger are left out.
- The Orika field mapping is written out as explicit copies (`Orders.Snapshot`, `Orders.ToInsertRequest`, `Orders.ToUpdateRequest`, `Orders.Described`); its configuration is not modelled.
- Message headers, JSON (de)serialisation, the channel binding and Spring wiring: the outbound channel is a plain sequence of payloads.
- The source files of the embedded meal DTO, the customer entity, the customer request DTOs and the outbound payload DTO are not part of this model. The model still has these shapes (`Orders.MealLine`, `CustomerServices.Customer`, the customer request datatypes, `Orders.OrderEvent`), inferred from the response DTOs and the field copies that use them.
- Characters: Java strings are UTF-16 code units, Dafny strings are sequences of Unicode scalar values. Whitespace follows `Character.isWhitespace` over the characters both can represent.

/** The NestJS exceptions the services throw, and the result of an operation that may throw one. */
module Exceptions {
  import opened OrderEntity

  datatype RecordKind = ProductRecord | OrderRecord

  datatype BadRequestReason =
    | EmptyOrder
    | InsufficientStock(productId: nat)
    | CurrencyMismatch
    | NotCancellable(status: OrderStatus)

  datatype ForbiddenReason =
    | NotOwner
    | AdminOnly
    | DisallowedFields(fields: seq<string>)

  datatype Exception =
    | BadRequest(reason: BadRequestReason)
    | NotFound(kind: RecordKind, id: nat)
    | Forbidden(why: ForbiddenReason)
    | Conflict

  datatype Result<T> = Success(value: T) | Failure(error: Exception)
}

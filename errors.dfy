/** The sentinel errors of the transaction package and the two wrappers that
    stand for Go's `error` and `(T, error)` return values. Errors are compared
    by identity in the service, so each sentinel is its own constructor. */
module Errors {

  datatype Error =
    | ErrOrderIsAlreadyFinalized
    | ErrOrderIsAlreadyCompleted
    | ErrOrderIsAlreadyCanceled
    | ErrOrderIsAlreadyShipped
    | ErrOrderNotFound
    | ErrInvalidCoupon
    | ErrCouponNotFound
    | ErrQuantityExceedProductStock
    | ErrProductNotFound
    | ErrCustomerNotFound
    | ErrAdminNotFound
    | ErrPaymentTypeNotAllowed
    | ErrPaymentProofIsNotBase64EncodedString
    | ErrLogisticsRegister
    | ErrLogisticsCheckShipment

  /** A Go `error`: `Pass` is nil. */
  datatype Outcome = Pass | Fail(error: Error)

  /** A Go `(T, error)` pair; the zero value that accompanies an error is not kept. */
  datatype Result<T> = Ok(value: T) | Err(error: Error)
}

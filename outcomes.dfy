/** Failure-carrying results shared by the whole pipeline. */
module Outcomes {

  /** Python's "a value or None". */
  datatype Option<+T> = None | Some(value: T)

  /** The exceptions that escape the pipeline, one constructor per cause. */
  datatype Error =
    | MalformedProductToken(token: string)  // `product_id, quantity = product.split(":")` unpacks the wrong number of parts
    | BadQuantity(token: string)            // `int(quantity)` raises
    | NoTransactionFiles                    // `pd.concat([])` raises: no `.txt` file was listed
    | EmptyTable                            // `int(nan)` raises: the maximum of an empty group sum
    | NonNumericProductId(id: string)       // `int(product_id)` raises on the best-selling id
    | NoMonthSegment(date: string)          // `date.split("-")[1]` raises IndexError

  /** A computation that either yields a value or raises one of the errors above. */
  datatype Result<+T> = Success(value: T) | Failure(error: Error)
}

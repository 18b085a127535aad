/** Small types shared by the models of the services. */
module Common {

  datatype Option<T> = None | Some(value: T)

  /** `orders.order_status`. */
  datatype Status = Pending | Confirmed | Shipped | Delivered | Cancelled

  function Min(a: int, b: int): int {
    if a < b then a else b
  }

  /** The part of `x` above zero. */
  function Positive(x: int): nat {
    if x > 0 then x else 0
  }
}

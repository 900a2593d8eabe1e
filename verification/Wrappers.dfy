/** Result and option types shared by every module, the answer of one poll, and truth as a number. */
module Wrappers {

  datatype Option<+T> = None | Some(value: T)

  datatype Result<+T, +E> = Ok(value: T) | Err(error: E)

  /** What a future answers when it is polled. */
  datatype Poll<+T> = Pending | Ready(value: T)

  function Bit(b: bool): nat { if b then 1 else 0 }
}

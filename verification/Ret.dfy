/** The return codes of `dpret.h` that the other modules use: negative for errors, and for an operation that has to wait. */
module Ret {
  const OK := 0
  const PERM := -1
  const WAIT := -11
  const NOMEM := -12
  const INVAL := -22
  const NAMETOOLONG := -36
  const NODATA := -61
  const TIME := -62
  const BADFD := -77
  const CONNRESET := -104
  const INPROGRESS := -115
  const EOF := -156
  const CONTINUE := -190
  const INTERNAL_ERROR := -500
}

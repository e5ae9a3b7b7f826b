/** A JavaScript promise seen from its executor: it settles once, and
    every later call of `resolve` or `reject` is ignored. */
module Promises {

  datatype Promise<+T, +E> = Pending | Fulfilled(value: T) | Rejected(reason: E)

  /** The executor's `resolve(v)`: only a pending promise takes the value. */
  function Resolve<T, E>(p: Promise<T, E>, v: T): Promise<T, E> {
    if p.Pending? then Fulfilled(v) else p
  }

  /** The executor's `reject(e)`: only a pending promise takes the reason. */
  function Reject<T, E>(p: Promise<T, E>, e: E): Promise<T, E> {
    if p.Pending? then Rejected(e) else p
  }
}

/** Names and units shared by the components of the chain. */
module Common {
  type Name = string

  /** STEEMIT_100_PERCENT */
  const HUNDRED_PERCENT: nat := 10000

  datatype Option<+T> = None | Some(value: T)
}

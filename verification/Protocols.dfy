/** The three protocols that share the radio. */
module Protocols {
  type Id = i: nat | i < 3
  const WLAN: Id := 0
  const BT: Id := 1
  const ZB: Id := 2
}

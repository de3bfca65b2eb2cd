/** Slot numbers shared by the router and the Bluetooth side. */
module Slots {
  /** Slot 1 is the hub itself. */
  const LOCAL_SLOT: nat := 1

  type Slot = n: nat | n < 256
}

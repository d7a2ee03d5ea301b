/** Fixed-width integers, Ethernet addresses and an Option type shared by the
    routing application. The C++ code uses uint8_t .. uint64_t and RUNOS's
    `ethaddr`; nothing here wraps around, so the widths are range-restricted
    integers. */
module NetTypes {

  newtype uint8 = x: int | 0 <= x < 0x100
  newtype uint16 = x: int | 0 <= x < 0x1_0000
  newtype uint32 = x: int | 0 <= x < 0x1_0000_0000
  newtype uint64 = x: int | 0 <= x < 0x1_0000_0000_0000_0000

  /** A 48-bit Ethernet address, most significant byte first. */
  type MacAddr = s: seq<uint8> | |s| == 6 witness [0, 0, 0, 0, 0, 0]

  /** ff:ff:ff:ff:ff:ff */
  const BroadcastMac: MacAddr := [0xFF, 0xFF, 0xFF, 0xFF, 0xFF, 0xFF]

  /** 00:00:00:00:00:00, the value a default-constructed `ethaddr` holds. */
  const ZeroMac: MacAddr := [0, 0, 0, 0, 0, 0]

  /** `is_broadcast`: every byte of the address is 0xFF. */
  predicate IsBroadcast(mac: MacAddr) {
    forall i | 0 <= i < 6 :: mac[i] == 0xFF
  }

  /** The broadcast test accepts exactly one address. */
  lemma IsBroadcastIffBroadcastMac(mac: MacAddr)
    ensures IsBroadcast(mac) <==> mac == BroadcastMac
  {
  }

  datatype Option<+T> = None | Some(value: T)
}

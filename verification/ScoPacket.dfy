/** The HCI SCO packet both voice directions and the bridge exchange: a 12-bit handle, a length byte, voice. */
module ScoPacket {
  import opened Bytes

  const HEADER := 3
  const MAX_PACKET := 258
  const MAX_ISO := 63

  /** The length byte accounts for everything after the header. */
  predicate WellFormed(p: seq<byte>) {
    |p| >= HEADER && |p| == HEADER + p[2]
  }
}

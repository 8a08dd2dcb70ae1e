/** Packet types and header flags (src/Packets/Constants.h) and the configured limits (src/Config.h). */
module Constants {
  import opened Bytes

  const CONNECT: byte := 16
  const CONNACK: byte := 32
  const PUBLISH: byte := 48
  const PUBACK: byte := 64
  const PUBREC: byte := 80
  const PUBREL: byte := 96
  const PUBCOMP: byte := 112
  const SUBSCRIBE: byte := 128
  const SUBACK: byte := 144
  const UNSUBSCRIBE: byte := 160
  const UNSUBACK: byte := 176
  const PINGREQ: byte := 192
  const PINGRESP: byte := 208
  const DISCONNECT: byte := 224

  const MAX_TOPIC_LENGTH := 128
  const PAYLOAD_BUFFER_SIZE := 32
  const TX_BUFFER_SIZE := 1440

  // header & 0xF0
  function Kind(header: byte): (k: byte)
  {
    header / 16 * 16
  }

  // header & 0x0F
  function Flags(header: byte): (f: byte)
  {
    header % 16
  }

  // (header & 0x06) >> 1
  function QosBits(header: byte): (q: byte)
    ensures q < 4
  {
    Flags(header) / 2 % 4
  }

  // header & 0x01
  predicate RetainBit(header: byte) {
    Flags(header) % 2 == 1
  }

  // header & 0x08
  predicate DupBit(header: byte) {
    Flags(header) >= 8
  }

  // header | 0x08
  function WithDup(header: byte): (h: byte)
    ensures DupBit(h) && Kind(h) == Kind(header) && QosBits(h) == QosBits(header) && RetainBit(h) == RetainBit(header)
  {
    if DupBit(header) then header
    else
      assert (header + 8) / 16 == header / 16 && (header + 8) % 16 == header % 16 + 8;
      header + 8
  }
}

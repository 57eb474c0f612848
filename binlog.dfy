/**
 Machine integers and binlog event headers, as the two command-line programs see them
 through the replication parser: position, size, type code and, for row events, the
 table and the number of row images.
 */
module Binlog {
  import opened Results

  type byte = x: int | 0 <= x < 0x100

  type uint32 = x: int | 0 <= x < 0x1_0000_0000

  const Two32: int := 0x1_0000_0000

  /** Go's conversion `uint32(x)` of a signed integer: the low 32 bits, two's complement. */
  function Uint32(x: int): (r: uint32)
    ensures 0 <= x < Two32 ==> r == x
    ensures -Two32 <= x < 0 ==> r == x + Two32
  {
    x % Two32
  }

  /** Go's `a - b` on `uint32`: the difference, wrapped around modulo 2^32. */
  function Sub32(a: uint32, b: uint32): (r: uint32)
    ensures b <= a ==> r == a - b
    ensures a < b ==> r == a - b + Two32
  {
    (a - b) % Two32
  }

  /** The row-event type codes of the replication protocol that the statistics distinguish. */
  const WriteRowsEventV1: byte := 23
  const UpdateRowsEventV1: byte := 24
  const DeleteRowsEventV1: byte := 25
  const WriteRowsEventV2: byte := 30
  const UpdateRowsEventV2: byte := 31
  const DeleteRowsEventV2: byte := 32

  /** What a decoded rows event carries that the programs use. */
  datatype RowsInfo = RowsInfo(schema: string, table: string, rows: nat)

  /**
   An event as the parser delivers it: `LogPos` is the position just after the event,
   `EventSize` its length; `rows` is present exactly when the body decoded as a rows event.
   */
  datatype Event = Event(logPos: uint32, eventSize: uint32, eventType: byte, rows: Option<RowsInfo>)

  /** `e.Header.LogPos - uint32(e.Header.EventSize)`: where the event starts. */
  function EventStart(e: Event): (r: uint32)
    ensures e.eventSize <= e.logPos ==> r + e.eventSize == e.logPos
    ensures e.logPos < e.eventSize ==> r + e.eventSize == e.logPos + Two32
  {
    Sub32(e.logPos, e.eventSize)
  }

  /** The start of an event whose size exceeds its end position wraps to a large value. */
  lemma StartWraps()
    ensures EventStart(Event(4, 10, 0, None)) == 0xFFFF_FFFA
  {
  }
}

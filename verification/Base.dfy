/** Plain values shared by every component. */
module Base {

  datatype Option<+T> = None | Some(value: T)

  type Byte = x: int | 0 <= x < 0x100
  type Bytes = seq<Byte>

  /** 16-byte identity of a participant, writer or reader. */
  type Guid = g: Bytes | |g| == 16 witness seq(16, _ => 0)

  const U16: nat := 0x1_0000
  const U32: nat := 0x1_0000_0000
  const U64: nat := 0x1_0000_0000_0000_0000

  function Min(a: nat, b: nat): nat { if a <= b then a else b }

  function Max(a: nat, b: nat): nat { if a >= b then a else b }

  // Enumerations travel as raw bytes and are not range-checked when decoded,
  // so they stay bytes here.
  const BEST_EFFORT: Byte := 0
  const RELIABLE: Byte := 1
  const VOLATILE: Byte := 0
  const TRANSIENT_LOCAL: Byte := 1
  const KEEP_LAST: Byte := 0
  const KEEP_ALL: Byte := 1

  const WRITER: Byte := 1
  const READER: Byte := 2

  datatype Qos = Qos(
    reliability: Byte, durability: Byte, history: Byte, liveliness: Byte,
    depth: nat, deadlineMs: nat, lifespanMs: nat, leaseMs: nat)

  /** Strict requested/offered compatibility, the writer's view of a match. */
  predicate QosCompatible(requested: Qos, offered: Qos) {
    && !(requested.reliability == RELIABLE && offered.reliability == BEST_EFFORT)
    && QosAcceptedByReader(requested, offered)
  }

  /** The reader's view of a match, lenient on reliability. */
  predicate QosAcceptedByReader(reader: Qos, writer: Qos) {
    !(reader.durability == TRANSIENT_LOCAL && writer.durability == VOLATILE)
  }

  /** A sample expires `lifespanMs` after publication; 0 means never, and so
      does an unknown publication time. */
  predicate LifespanExpired(lifespanMs: nat, pubMs: nat, nowMs: nat) {
    lifespanMs > 0 && pubMs > 0 && nowMs >= pubMs + lifespanMs
  }
}

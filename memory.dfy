/** Definitions shared by every backing of the `Memory` trait: the value and
    address widths, what an access can end in, and the big-endian splitting
    and joining of words and longs into bytes (or words into halves). */
module Memory {

  /** Bytes allocated for the machine's store by `CPU::new`. */
  const MEMORY_CAPACITY: nat := 0x50_0000

  type Byte = bv8
  type Word = bv16
  type Long = bv32

  /** A `u32` address. Every backing first widens it to `usize`, so on a
      64-bit target the address arithmetic of the guards (`address + 3`)
      never wraps. */
  type Address = a: int | 0 <= a < 0x1_0000_0000

  /** The message every failed write returns. */
  const OUT_OF_BOUNDS: string := "Address out of Bounds"

  /** What a read of the source can end in: `Some(value)`, the guard's `None`
      branch, or Rust's own index check aborting because the guard let an
      index equal to the length through. */
  datatype ReadOutcome<T> = Some(value: T) | None | ReadPanic

  /** What a write of the source can end in: `Ok(())`, the guard's
      `Err("Address out of Bounds")` branch, or Rust's index check aborting. */
  datatype WriteOutcome = Ok | Err(message: string) | WritePanic

  /** The store a write leaves behind, with the outcome it reported. Bytes
      stored before an index panic stay stored. */
  datatype Effect<T> = Effect(store: seq<T>, outcome: WriteOutcome)

  /** `(w >> 8) as u8` */
  function HighByte(w: Word): Byte { (w >> 8) as Byte }

  /** `w as u8` (truncation) */
  function LowByte(w: Word): Byte { (w & 0xFF) as Byte }

  /** `(hi as u16) << 8 | lo as u16`: the big-endian word whose bytes are
      `hi` (most significant) then `lo`. */
  function JoinWord(hi: Byte, lo: Byte): (w: Word)
    ensures HighByte(w) == hi && LowByte(w) == lo
  {
    ((hi as Word) << 8) | (lo as Word)
  }

  /** Byte `k` of a long in big-endian order (`k == 0` is the most
      significant): `(v >> 24) as u8`, `(v >> 16) as u8`, `(v >> 8) as u8`,
      `v as u8`. */
  function LongByte(v: Long, k: nat): Byte
    requires k < 4
  {
    if k == 0 then ((v >> 24) & 0xFF) as Byte
    else if k == 1 then ((v >> 16) & 0xFF) as Byte
    else if k == 2 then ((v >> 8) & 0xFF) as Byte
    else (v & 0xFF) as Byte
  }

  /** `(b0 as u32) << 24 | (b1 as u32) << 16 | (b2 as u32) << 8 | b3 as u32` */
  function JoinLong(b0: Byte, b1: Byte, b2: Byte, b3: Byte): (v: Long)
    ensures LongByte(v, 0) == b0 && LongByte(v, 1) == b1
    ensures LongByte(v, 2) == b2 && LongByte(v, 3) == b3
  {
    ((b0 as Long) << 24) | ((b1 as Long) << 16) | ((b2 as Long) << 8) | (b3 as Long)
  }

  /** `(v >> 16) as u16` */
  function HighHalf(v: Long): Word { (v >> 16) as Word }

  /** `v as u16` (truncation) */
  function LowHalf(v: Long): Word { (v & 0xFFFF) as Word }

  /** `(hi as u32) << 16 | lo as u32` */
  function JoinHalves(hi: Word, lo: Word): (v: Long)
    ensures HighHalf(v) == hi && LowHalf(v) == lo
  {
    ((hi as Long) << 16) | (lo as Long)
  }

  /** A word is determined by its two bytes. */
  lemma WordOfBytes(w: Word)
    ensures JoinWord(HighByte(w), LowByte(w)) == w
  {
  }

  /** A long is determined by its four bytes. */
  lemma LongOfBytes(v: Long)
    ensures JoinLong(LongByte(v, 0), LongByte(v, 1), LongByte(v, 2), LongByte(v, 3)) == v
  {
  }

  /** A long is determined by its two halves. */
  lemma LongOfHalves(v: Long)
    ensures JoinHalves(HighHalf(v), LowHalf(v)) == v
  {
  }

  /** The bytes of a long, pairwise, are the bytes of its halves. */
  lemma HalvesOfLong(v: Long)
    ensures HighByte(HighHalf(v)) == LongByte(v, 0) && LowByte(HighHalf(v)) == LongByte(v, 1)
    ensures HighByte(LowHalf(v)) == LongByte(v, 2) && LowByte(LowHalf(v)) == LongByte(v, 3)
  {
  }
}

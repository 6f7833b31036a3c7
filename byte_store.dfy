/** The byte-addressed backing of `Memory`: `impl Memory for [u8]` and the
    textually identical `impl Memory for Box<[u8]>`. Reads are functions of
    the slice's contents; writes are methods that update the array in place,
    each specified by an `Effect` function on the old contents.

    The guards are written `len >= address + (w - 1)` for a `w`-byte access,
    which lets `address + w == len + 1` through to an index that Rust rejects
    with a panic. The model keeps that case (`ReadPanic`, `WritePanic`); the contracts
    state the range in which an access really succeeds, `address + w <= len`. */
module ByteStore {
  import opened Memory

  // ---------------------------------------------------------------------
  // Reads
  // ---------------------------------------------------------------------

  /** `read_at_address_byte` */
  function ReadByte(mem: seq<Byte>, address: Address): (r: ReadOutcome<Byte>)
    ensures r.Some? <==> address < |mem|
    ensures r.Some? ==> r.value == mem[address]
    ensures r.ReadPanic? <==> address == |mem|
    ensures r.None? <==> |mem| < address
  {
    if |mem| >= address then
      if address < |mem| then Some(mem[address]) else ReadPanic
    else
      None
  }

  /** `read_at_address_word`: big-endian, the byte at `address` is the most
      significant. */
  function ReadWord(mem: seq<Byte>, address: Address): (r: ReadOutcome<Word>)
    ensures r.Some? <==> address + 2 <= |mem|
    ensures r.Some? ==> HighByte(r.value) == mem[address] && LowByte(r.value) == mem[address + 1]
    ensures r.ReadPanic? <==> address + 1 == |mem|
    ensures r.None? <==> |mem| < address + 1
  {
    if |mem| >= address + 1 then
      if address + 1 < |mem| then Some(JoinWord(mem[address], mem[address + 1])) else ReadPanic
    else
      None
  }

  /** `read_at_address_long`: big-endian, byte `k` of the result is the byte
      at `address + k`. */
  function ReadLong(mem: seq<Byte>, address: Address): (r: ReadOutcome<Long>)
    ensures r.Some? <==> address + 4 <= |mem|
    ensures r.Some? ==> forall k :: 0 <= k < 4 ==> LongByte(r.value, k) == mem[address + k]
    ensures r.ReadPanic? <==> address + 3 == |mem|
    ensures r.None? <==> |mem| < address + 3
  {
    if |mem| >= address + 3 then
      if address + 3 < |mem| then
        Some(JoinLong(mem[address], mem[address + 1], mem[address + 2], mem[address + 3]))
      else
        ReadPanic
    else
      None
  }

  // ---------------------------------------------------------------------
  // Writes, as functions of the old contents
  // ---------------------------------------------------------------------

  /** What `write_at_address_byte` does to the slice. */
  function WriteByteEffect(mem: seq<Byte>, address: Address, data: Byte): (e: Effect<Byte>)
    ensures |e.store| == |mem|
    ensures e.outcome.Ok? <==> address < |mem|
    ensures e.outcome.Ok? ==> e.store[address] == data
    ensures forall i :: 0 <= i < |mem| && i != address ==> e.store[i] == mem[i]
    ensures e.outcome.WritePanic? <==> address == |mem|
    ensures e.outcome.Err? <==> |mem| < address
    ensures e.outcome.Err? ==> e.outcome.message == OUT_OF_BOUNDS
    ensures !e.outcome.Ok? ==> e.store == mem
  {
    if |mem| >= address then
      if address < |mem| then Effect(mem[address := data], Ok) else Effect(mem, WritePanic)
    else
      Effect(mem, Err(OUT_OF_BOUNDS))
  }

  /** What `write_at_address_word` does to the slice. When the guard admits
      `address + 1 == len`, the high byte is stored before the second index
      panics. */
  function WriteWordEffect(mem: seq<Byte>, address: Address, data: Word): (e: Effect<Byte>)
    ensures |e.store| == |mem|
    ensures e.outcome.Ok? <==> address + 2 <= |mem|
    ensures e.outcome.Ok? ==> e.store[address] == HighByte(data) && e.store[address + 1] == LowByte(data)
    ensures forall i :: 0 <= i < |mem| && !(address <= i < address + 2) ==> e.store[i] == mem[i]
    ensures e.outcome.WritePanic? <==> address + 1 == |mem|
    ensures e.outcome.WritePanic? ==> e.store == mem[address := HighByte(data)]
    ensures e.outcome.Err? <==> |mem| < address + 1
    ensures e.outcome.Err? ==> e.outcome.message == OUT_OF_BOUNDS && e.store == mem
  {
    if |mem| >= address + 1 then
      var s := mem[address := HighByte(data)];
      if address + 1 < |mem| then Effect(s[address + 1 := LowByte(data)], Ok) else Effect(s, WritePanic)
    else
      Effect(mem, Err(OUT_OF_BOUNDS))
  }

  /** What `write_at_address_long` does to the slice. When the guard admits
      `address + 3 == len`, three bytes are stored before the fourth index
      panics. */
  function WriteLongEffect(mem: seq<Byte>, address: Address, data: Long): (e: Effect<Byte>)
    ensures |e.store| == |mem|
    ensures e.outcome.Ok? <==> address + 4 <= |mem|
    ensures e.outcome.Ok? ==> forall k :: 0 <= k < 4 ==> e.store[address + k] == LongByte(data, k)
    ensures forall i :: 0 <= i < |mem| && !(address <= i < address + 4) ==> e.store[i] == mem[i]
    ensures e.outcome.WritePanic? <==> address + 3 == |mem|
    ensures e.outcome.WritePanic? ==>
      forall i :: 0 <= i < |mem| ==> e.store[i] == (if i < address then mem[i] else LongByte(data, i - address))
    ensures e.outcome.Err? <==> |mem| < address + 3
    ensures e.outcome.Err? ==> e.outcome.message == OUT_OF_BOUNDS && e.store == mem
  {
    if |mem| >= address + 3 then
      var s := mem[address := LongByte(data, 0)][address + 1 := LongByte(data, 1)][address + 2 := LongByte(data, 2)];
      if address + 3 < |mem| then Effect(s[address + 3 := LongByte(data, 3)], Ok) else Effect(s, WritePanic)
    else
      Effect(mem, Err(OUT_OF_BOUNDS))
  }

  // ---------------------------------------------------------------------
  // Writes, in place
  // ---------------------------------------------------------------------

  /** `write_at_address_byte` */
  method WriteByte(mem: array<Byte>, address: Address, data: Byte) returns (r: WriteOutcome)
    modifies mem
    ensures Effect(mem[..], r) == WriteByteEffect(old(mem[..]), address, data)
  {
    if mem.Length >= address {
      if address < mem.Length {
        mem[address] := data;
        r := Ok;
      } else {
        r := WritePanic;
      }
    } else {
      r := Err(OUT_OF_BOUNDS);
    }
  }

  /** `write_at_address_word` */
  method WriteWord(mem: array<Byte>, address: Address, data: Word) returns (r: WriteOutcome)
    modifies mem
    ensures Effect(mem[..], r) == WriteWordEffect(old(mem[..]), address, data)
  {
    if mem.Length >= address + 1 {
      mem[address] := HighByte(data);
      if address + 1 < mem.Length {
        mem[address + 1] := LowByte(data);
        r := Ok;
      } else {
        r := WritePanic;
      }
    } else {
      r := Err(OUT_OF_BOUNDS);
    }
  }

  /** `write_at_address_long` */
  method WriteLong(mem: array<Byte>, address: Address, data: Long) returns (r: WriteOutcome)
    modifies mem
    ensures Effect(mem[..], r) == WriteLongEffect(old(mem[..]), address, data)
  {
    if mem.Length >= address + 3 {
      mem[address] := LongByte(data, 0);
      mem[address + 1] := LongByte(data, 1);
      mem[address + 2] := LongByte(data, 2);
      if address + 3 < mem.Length {
        mem[address + 3] := LongByte(data, 3);
        r := Ok;
      } else {
        r := WritePanic;
      }
    } else {
      r := Err(OUT_OF_BOUNDS);
    }
  }

  // ---------------------------------------------------------------------
  // Round trips and layout
  // ---------------------------------------------------------------------

  /** A byte written where there is room reads back. */
  lemma ByteRoundTrip(mem: seq<Byte>, address: Address, data: Byte)
    requires address < |mem|
    ensures WriteByteEffect(mem, address, data).outcome == Ok
    ensures ReadByte(WriteByteEffect(mem, address, data).store, address) == Some(data)
  {
  }

  /** A word written where there is room reads back. */
  lemma WordRoundTrip(mem: seq<Byte>, address: Address, data: Word)
    requires address + 2 <= |mem|
    ensures WriteWordEffect(mem, address, data).outcome == Ok
    ensures ReadWord(WriteWordEffect(mem, address, data).store, address) == Some(data)
  {
  }

  /** A long written where there is room reads back. */
  lemma LongRoundTrip(mem: seq<Byte>, address: Address, data: Long)
    requires address + 4 <= |mem|
    ensures WriteLongEffect(mem, address, data).outcome == Ok
    ensures ReadLong(WriteLongEffect(mem, address, data).store, address) == Some(data)
  {
  }

  /** The word `0x1234` written at address 0 is laid out as `0x12`, `0x34`. */
  lemma WordLayoutExample(mem: seq<Byte>)
    requires 2 <= |mem|
    ensures WriteWordEffect(mem, 0, 0x1234).store[..2] == [0x12, 0x34]
  {
  }

  /** A long is laid out as its high word followed by its low word: the two
      word reads after a long write return its halves. */
  lemma LongAsWords(mem: seq<Byte>, address: Address, data: Long)
    requires address + 4 <= |mem| && address + 2 < 0x1_0000_0000
    ensures ReadWord(WriteLongEffect(mem, address, data).store, address) == Some(HighHalf(data))
    ensures ReadWord(WriteLongEffect(mem, address, data).store, address + 2) == Some(LowHalf(data))
  {
  }

  /** A word write does not change what a word read at a disjoint span sees. */
  lemma WordReadAfterDisjointWrite(mem: seq<Byte>, address: Address, data: Word, other: Address)
    requires other + 2 <= address || address + 2 <= other
    ensures ReadWord(WriteWordEffect(mem, address, data).store, other) == ReadWord(mem, other)
  {
  }

  /** A long write does not change what a long read at a disjoint span sees. */
  lemma LongReadAfterDisjointWrite(mem: seq<Byte>, address: Address, data: Long, other: Address)
    requires other + 4 <= address || address + 4 <= other
    ensures ReadLong(WriteLongEffect(mem, address, data).store, other) == ReadLong(mem, other)
  {
  }

  // ---------------------------------------------------------------------
  // The off-by-one guards, and the guards they were meant to be
  // ---------------------------------------------------------------------

  /** As written, a byte access at `len` passes the guard and panics. */
  lemma ByteGuardAdmitsLength(mem: seq<Byte>, data: Byte)
    requires |mem| < 0x1_0000_0000
    ensures ReadByte(mem, |mem|) == ReadPanic
    ensures WriteByteEffect(mem, |mem|, data) == Effect(mem, WritePanic)
  {
  }

  /** As written, a word access at `len - 1` passes the guard and panics, and
      the write has already stored its high byte: it is not all-or-nothing. */
  lemma WordGuardAdmitsLastByte(mem: seq<Byte>, data: Word)
    requires 1 <= |mem| <= 0x1_0000_0000
    ensures ReadWord(mem, |mem| - 1) == ReadPanic
    ensures WriteWordEffect(mem, |mem| - 1, data) == Effect(mem[|mem| - 1 := HighByte(data)], WritePanic)
  {
  }

  /** As written, a long access at `len - 3` passes the guard and panics,
      after three of the four bytes have been stored. */
  lemma LongGuardAdmitsLastThree(mem: seq<Byte>, data: Long)
    requires 3 <= |mem| <= 0x1_0000_0002
    ensures ReadLong(mem, |mem| - 3) == ReadPanic
    ensures WriteLongEffect(mem, |mem| - 3, data).outcome == WritePanic
    ensures WriteLongEffect(mem, |mem| - 3, data).store[..|mem| - 3] == mem[..|mem| - 3]
    ensures WriteLongEffect(mem, |mem| - 3, data).store[|mem| - 3..] == [LongByte(data, 0), LongByte(data, 1), LongByte(data, 2)]
  {
  }

  /** The byte read with the guard `address + 1 <= len`. */
  function CheckedReadByte(mem: seq<Byte>, address: Address): (r: ReadOutcome<Byte>)
    ensures !r.ReadPanic?
    ensures r.Some? <==> address < |mem|
    ensures r.Some? ==> r.value == mem[address]
  {
    if |mem| >= address + 1 then Some(mem[address]) else None
  }

  /** The word read with the guard `address + 2 <= len`. */
  function CheckedReadWord(mem: seq<Byte>, address: Address): (r: ReadOutcome<Word>)
    ensures !r.ReadPanic?
    ensures r.Some? <==> address + 2 <= |mem|
    ensures r.Some? ==> HighByte(r.value) == mem[address] && LowByte(r.value) == mem[address + 1]
  {
    if |mem| >= address + 2 then Some(JoinWord(mem[address], mem[address + 1])) else None
  }

  /** The long read with the guard `address + 4 <= len`. */
  function CheckedReadLong(mem: seq<Byte>, address: Address): (r: ReadOutcome<Long>)
    ensures !r.ReadPanic?
    ensures r.Some? <==> address + 4 <= |mem|
    ensures r.Some? ==> forall k :: 0 <= k < 4 ==> LongByte(r.value, k) == mem[address + k]
  {
    if |mem| >= address + 4 then
      Some(JoinLong(mem[address], mem[address + 1], mem[address + 2], mem[address + 3]))
    else
      None
  }

  /** The byte write with the guard `address + 1 <= len`: it either stores
      the byte or reports the error and leaves every byte as it was. */
  function CheckedWriteByteEffect(mem: seq<Byte>, address: Address, data: Byte): (e: Effect<Byte>)
    ensures e.outcome == Ok || e == Effect(mem, Err(OUT_OF_BOUNDS))
    ensures e.outcome.Ok? <==> address < |mem|
    ensures e.outcome.Ok? ==> e.store == mem[address := data]
  {
    if |mem| >= address + 1 then Effect(mem[address := data], Ok) else Effect(mem, Err(OUT_OF_BOUNDS))
  }

  /** The word write with the guard `address + 2 <= len`: all or nothing. */
  function CheckedWriteWordEffect(mem: seq<Byte>, address: Address, data: Word): (e: Effect<Byte>)
    ensures e.outcome == Ok || e == Effect(mem, Err(OUT_OF_BOUNDS))
    ensures e.outcome.Ok? <==> address + 2 <= |mem|
    ensures e.outcome.Ok? ==> |e.store| == |mem| && CheckedReadWord(e.store, address) == Some(data)
    ensures e.outcome.Ok? ==> forall i :: 0 <= i < |mem| && !(address <= i < address + 2) ==> e.store[i] == mem[i]
  {
    if |mem| >= address + 2 then
      WordOfBytes(data);
      Effect(mem[address := HighByte(data)][address + 1 := LowByte(data)], Ok)
    else
      Effect(mem, Err(OUT_OF_BOUNDS))
  }

  /** The long write with the guard `address + 4 <= len`: all or nothing. */
  function CheckedWriteLongEffect(mem: seq<Byte>, address: Address, data: Long): (e: Effect<Byte>)
    ensures e.outcome == Ok || e == Effect(mem, Err(OUT_OF_BOUNDS))
    ensures e.outcome.Ok? <==> address + 4 <= |mem|
    ensures e.outcome.Ok? ==> |e.store| == |mem| && CheckedReadLong(e.store, address) == Some(data)
    ensures e.outcome.Ok? ==> forall i :: 0 <= i < |mem| && !(address <= i < address + 4) ==> e.store[i] == mem[i]
  {
    if |mem| >= address + 4 then
      LongOfBytes(data);
      var s := mem[address := LongByte(data, 0)][address + 1 := LongByte(data, 1)]
                  [address + 2 := LongByte(data, 2)][address + 3 := LongByte(data, 3)];
      Effect(s, Ok)
    else
      Effect(mem, Err(OUT_OF_BOUNDS))
  }

  /** Wherever the written reads succeed, the corrected reads return the same
      value; they differ only where the written ones panic, and there the
      corrected ones report `None`. */
  lemma CheckedReadsAgree(mem: seq<Byte>, address: Address)
    ensures ReadByte(mem, address).Some? ==> CheckedReadByte(mem, address) == ReadByte(mem, address)
    ensures ReadWord(mem, address).Some? ==> CheckedReadWord(mem, address) == ReadWord(mem, address)
    ensures ReadLong(mem, address).Some? ==> CheckedReadLong(mem, address) == ReadLong(mem, address)
    ensures !ReadByte(mem, address).Some? ==> CheckedReadByte(mem, address) == None
    ensures !ReadWord(mem, address).Some? ==> CheckedReadWord(mem, address) == None
    ensures !ReadLong(mem, address).Some? ==> CheckedReadLong(mem, address) == None
  {
  }

  /** Wherever the written writes succeed, the corrected writes leave the
      same store; where the written ones panic, the corrected ones leave the
      store untouched. */
  lemma CheckedWritesAgree(mem: seq<Byte>, address: Address, b: Byte, w: Word, l: Long)
    ensures WriteByteEffect(mem, address, b).outcome.Ok? ==> CheckedWriteByteEffect(mem, address, b) == WriteByteEffect(mem, address, b)
    ensures WriteWordEffect(mem, address, w).outcome.Ok? ==> CheckedWriteWordEffect(mem, address, w) == WriteWordEffect(mem, address, w)
    ensures WriteLongEffect(mem, address, l).outcome.Ok? ==> CheckedWriteLongEffect(mem, address, l) == WriteLongEffect(mem, address, l)
    ensures !WriteWordEffect(mem, address, w).outcome.Ok? ==> CheckedWriteWordEffect(mem, address, w).store == mem
    ensures !WriteLongEffect(mem, address, l).outcome.Ok? ==> CheckedWriteLongEffect(mem, address, l).store == mem
  {
  }
}

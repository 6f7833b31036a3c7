/** The word-cell backing of `Memory`: `impl Memory for [u16]`. Each cell
    holds a 16-bit word; a byte access uses the cell's high byte.

    Reads and writes do not agree on which cell an address names: every read
    indexes the slice by the raw `address`, every write by `address >> 1`. A
    value written at a nonzero address is therefore not, in general, the
    value read back at that address (`WordRoundTripFails`); it is the value
    read back at cell `address >> 1` (`WordCellRoundTrip` and its partners).
    The guards have the same off-by-one as the byte backing, which the model
    keeps as `ReadPanic` and `WritePanic` (`GuardsAdmitLastCell`); the
    `Checked` functions use the guards that were meant. */
module WordStore {
  import opened Memory
  import ByteStore

  /** `address as usize >> 1`: the cell a write uses. */
  function CellOf(address: Address): (c: nat)
    ensures 2 * c <= address < 2 * c + 2
  {
    address / 2
  }

  // ---------------------------------------------------------------------
  // Reads (indexed by the raw address)
  // ---------------------------------------------------------------------

  /** `read_at_address_byte`: the high byte of cell `address`. */
  function ReadByte(cells: seq<Word>, address: Address): (r: ReadOutcome<Byte>)
    ensures r.Some? <==> address < |cells|
    ensures r.Some? ==> r.value == HighByte(cells[address])
    ensures r.ReadPanic? <==> address == |cells|
    ensures r.None? <==> |cells| < address
  {
    if |cells| >= address then
      if address < |cells| then Some(HighByte(cells[address])) else ReadPanic
    else
      None
  }

  /** `read_at_address_word`: cell `address`. */
  function ReadWord(cells: seq<Word>, address: Address): (r: ReadOutcome<Word>)
    ensures r.Some? <==> address < |cells|
    ensures r.Some? ==> r.value == cells[address]
    ensures r.ReadPanic? <==> address == |cells|
    ensures r.None? <==> |cells| < address
  {
    if |cells| >= address then
      if address < |cells| then Some(cells[address]) else ReadPanic
    else
      None
  }

  /** `read_at_address_long`: cell `address` is the high half and cell
      `address + 1` the low half. */
  function ReadLong(cells: seq<Word>, address: Address): (r: ReadOutcome<Long>)
    ensures r.Some? <==> address + 2 <= |cells|
    ensures r.Some? ==> HighHalf(r.value) == cells[address] && LowHalf(r.value) == cells[address + 1]
    ensures r.ReadPanic? <==> address + 1 == |cells|
    ensures r.None? <==> |cells| < address + 1
  {
    if |cells| >= address + 1 then
      if address + 1 < |cells| then Some(JoinHalves(cells[address], cells[address + 1])) else ReadPanic
    else
      None
  }

  // ---------------------------------------------------------------------
  // Writes (indexed by address >> 1), as functions of the old contents
  // ---------------------------------------------------------------------

  /** `(cell & 0x00FF) | ((data as u16) << 8)` */
  function WithHighByte(cell: Word, data: Byte): (w: Word)
    ensures HighByte(w) == data && LowByte(w) == LowByte(cell)
  {
    (cell & 0x00FF) | ((data as Word) << 8)
  }

  /** What `write_at_address_byte` does to the slice: the high byte of cell
      `address >> 1` becomes `data`, its low byte is kept, whatever the parity
      of `address`. A panic happens on reading the cell, before any store. */
  function WriteByteEffect(cells: seq<Word>, address: Address, data: Byte): (e: Effect<Word>)
    ensures |e.store| == |cells|
    ensures e.outcome.Ok? <==> CellOf(address) < |cells|
    ensures e.outcome.Ok? ==>
      HighByte(e.store[CellOf(address)]) == data && LowByte(e.store[CellOf(address)]) == LowByte(cells[CellOf(address)])
    ensures forall i :: 0 <= i < |cells| && i != CellOf(address) ==> e.store[i] == cells[i]
    ensures e.outcome.WritePanic? <==> CellOf(address) == |cells|
    ensures e.outcome.Err? <==> |cells| < CellOf(address)
    ensures e.outcome.Err? ==> e.outcome.message == OUT_OF_BOUNDS
    ensures !e.outcome.Ok? ==> e.store == cells
  {
    var c := CellOf(address);
    if |cells| >= c then
      if c < |cells| then Effect(cells[c := WithHighByte(cells[c], data)], Ok) else Effect(cells, WritePanic)
    else
      Effect(cells, Err(OUT_OF_BOUNDS))
  }

  /** What `write_at_address_word` does to the slice: cell `address >> 1`
      becomes `data`. */
  function WriteWordEffect(cells: seq<Word>, address: Address, data: Word): (e: Effect<Word>)
    ensures |e.store| == |cells|
    ensures e.outcome.Ok? <==> CellOf(address) < |cells|
    ensures e.outcome.Ok? ==> e.store[CellOf(address)] == data
    ensures forall i :: 0 <= i < |cells| && i != CellOf(address) ==> e.store[i] == cells[i]
    ensures e.outcome.WritePanic? <==> CellOf(address) == |cells|
    ensures e.outcome.Err? <==> |cells| < CellOf(address)
    ensures e.outcome.Err? ==> e.outcome.message == OUT_OF_BOUNDS
    ensures !e.outcome.Ok? ==> e.store == cells
  {
    var c := CellOf(address);
    if |cells| >= c then
      if c < |cells| then Effect(cells[c := data], Ok) else Effect(cells, WritePanic)
    else
      Effect(cells, Err(OUT_OF_BOUNDS))
  }

  /** What `write_at_address_long` does to the slice: the high half goes to
      cell `address >> 1` and the low half to the cell after it. When the
      guard admits `(address >> 1) + 1 == len`, the high half is stored before
      the second index panics. */
  function WriteLongEffect(cells: seq<Word>, address: Address, data: Long): (e: Effect<Word>)
    ensures |e.store| == |cells|
    ensures e.outcome.Ok? <==> CellOf(address) + 2 <= |cells|
    ensures e.outcome.Ok? ==>
      e.store[CellOf(address)] == HighHalf(data) && e.store[CellOf(address) + 1] == LowHalf(data)
    ensures forall i :: 0 <= i < |cells| && !(CellOf(address) <= i < CellOf(address) + 2) ==> e.store[i] == cells[i]
    ensures e.outcome.WritePanic? <==> CellOf(address) + 1 == |cells|
    ensures e.outcome.WritePanic? ==> e.store == cells[CellOf(address) := HighHalf(data)]
    ensures e.outcome.Err? <==> |cells| < CellOf(address) + 1
    ensures e.outcome.Err? ==> e.outcome.message == OUT_OF_BOUNDS && e.store == cells
  {
    var c := CellOf(address);
    if |cells| >= c + 1 then
      var s := cells[c := HighHalf(data)];
      if c + 1 < |cells| then Effect(s[c + 1 := LowHalf(data)], Ok) else Effect(s, WritePanic)
    else
      Effect(cells, Err(OUT_OF_BOUNDS))
  }

  // ---------------------------------------------------------------------
  // Writes, in place
  // ---------------------------------------------------------------------

  /** `write_at_address_byte` */
  method WriteByte(cells: array<Word>, address: Address, data: Byte) returns (r: WriteOutcome)
    modifies cells
    ensures Effect(cells[..], r) == WriteByteEffect(old(cells[..]), address, data)
  {
    var c := address / 2;
    if cells.Length >= c {
      if c < cells.Length {
        cells[c] := (cells[c] & 0x00FF) | ((data as Word) << 8);
        r := Ok;
      } else {
        r := WritePanic;
      }
    } else {
      r := Err(OUT_OF_BOUNDS);
    }
  }

  /** `write_at_address_word` */
  method WriteWord(cells: array<Word>, address: Address, data: Word) returns (r: WriteOutcome)
    modifies cells
    ensures Effect(cells[..], r) == WriteWordEffect(old(cells[..]), address, data)
  {
    var c := address / 2;
    if cells.Length >= c {
      if c < cells.Length {
        cells[c] := data;
        r := Ok;
      } else {
        r := WritePanic;
      }
    } else {
      r := Err(OUT_OF_BOUNDS);
    }
  }

  /** `write_at_address_long` */
  method WriteLong(cells: array<Word>, address: Address, data: Long) returns (r: WriteOutcome)
    modifies cells
    ensures Effect(cells[..], r) == WriteLongEffect(old(cells[..]), address, data)
  {
    var c := address / 2;
    if cells.Length >= c + 1 {
      cells[c] := HighHalf(data);
      if c + 1 < cells.Length {
        cells[c + 1] := LowHalf(data);
        r := Ok;
      } else {
        r := WritePanic;
      }
    } else {
      r := Err(OUT_OF_BOUNDS);
    }
  }

  // ---------------------------------------------------------------------
  // Where written values can be read back
  // ---------------------------------------------------------------------

  /** A word written at `address` is read back at cell `address >> 1`. */
  lemma WordCellRoundTrip(cells: seq<Word>, address: Address, data: Word)
    requires CellOf(address) < |cells|
    ensures ReadWord(WriteWordEffect(cells, address, data).store, CellOf(address)) == Some(data)
  {
  }

  /** A byte written at `address` is read back at cell `address >> 1`. */
  lemma ByteCellRoundTrip(cells: seq<Word>, address: Address, data: Byte)
    requires CellOf(address) < |cells|
    ensures ReadByte(WriteByteEffect(cells, address, data).store, CellOf(address)) == Some(data)
  {
  }

  /** A long written at `address` is read back at cell `address >> 1`. */
  lemma LongCellRoundTrip(cells: seq<Word>, address: Address, data: Long)
    requires CellOf(address) + 2 <= |cells|
    ensures ReadLong(WriteLongEffect(cells, address, data).store, CellOf(address)) == Some(data)
  {
  }

  /** Reading a word back at the address it was written to returns the
      written word exactly when the address is 0 (where `address >> 1` and
      `address` name the same cell) or the cell read already held that word. */
  lemma WordRoundTripIff(cells: seq<Word>, address: Address, data: Word)
    requires address < |cells|
    ensures ReadWord(WriteWordEffect(cells, address, data).store, address) == Some(data)
        <==> address == 0 || cells[address] == data
  {
  }

  /** No general round trip: in a zeroed three-cell store, the word `0x1234`
      written at address 2 goes into cell 1, and the read at address 2 still
      sees cell 2's zero. */
  lemma WordRoundTripFails()
    ensures WriteWordEffect([0, 0, 0], 2, 0x1234).outcome == Ok
    ensures ReadWord(WriteWordEffect([0, 0, 0], 2, 0x1234).store, 2) == Some(0)
  {
  }

  /** The two backings holding the same bytes do not answer byte reads
      alike: as a byte store `0x12, 0x34` reads `0x34` at address 1, while
      the word store `[0x1234]` holding the same bytes panics there, since it
      indexes cell 1. Only at address 0 do they agree. */
  lemma BackingsDisagreeOnByteRead()
    ensures ByteStore.ReadByte([0x12, 0x34], 0) == ReadByte([0x1234], 0) == Some(0x12)
    ensures ByteStore.ReadByte([0x12, 0x34], 1) == Some(0x34)
    ensures ReadByte([0x1234], 1) == ReadPanic
  {
  }

  /** A byte write at an odd address stores into the high byte of the same
      cell as the even address before it: the two byte addresses of a cell
      are not told apart. */
  lemma ByteWriteIgnoresParity(cells: seq<Word>, address: Address, data: Byte)
    requires address % 2 == 0 && address + 1 < 0x1_0000_0000
    ensures WriteByteEffect(cells, address + 1, data) == WriteByteEffect(cells, address, data)
  {
  }

  // ---------------------------------------------------------------------
  // The off-by-one guards, and the guards they were meant to be
  // ---------------------------------------------------------------------

  /** As written, every access one cell past the end passes its guard and
      panics: reads at cell `len`, long reads at cell `len - 1`, writes whose
      cell is `len`, and a long write whose cell is `len - 1`, which has
      already stored the high half when it panics. */
  lemma GuardsAdmitLastCell(cells: seq<Word>, b: Byte, w: Word, l: Long)
    requires 1 <= |cells| && 2 * |cells| < 0x1_0000_0000
    ensures ReadByte(cells, |cells|) == ReadPanic
    ensures ReadWord(cells, |cells|) == ReadPanic
    ensures ReadLong(cells, |cells| - 1) == ReadPanic
    ensures WriteByteEffect(cells, 2 * |cells|, b) == Effect(cells, WritePanic)
    ensures WriteWordEffect(cells, 2 * |cells|, w) == Effect(cells, WritePanic)
    ensures WriteLongEffect(cells, 2 * (|cells| - 1), l)
         == Effect(cells[|cells| - 1 := HighHalf(l)], WritePanic)
  {
  }

  /** The byte read with the guard `address < len`. */
  function CheckedReadByte(cells: seq<Word>, address: Address): (r: ReadOutcome<Byte>)
    ensures !r.ReadPanic?
    ensures r.Some? <==> address < |cells|
    ensures r.Some? ==> r.value == HighByte(cells[address])
  {
    if |cells| > address then Some(HighByte(cells[address])) else None
  }

  /** The word read with the guard `address < len`. */
  function CheckedReadWord(cells: seq<Word>, address: Address): (r: ReadOutcome<Word>)
    ensures !r.ReadPanic?
    ensures r.Some? <==> address < |cells|
    ensures r.Some? ==> r.value == cells[address]
  {
    if |cells| > address then Some(cells[address]) else None
  }

  /** The long read with the guard `address + 2 <= len`. */
  function CheckedReadLong(cells: seq<Word>, address: Address): (r: ReadOutcome<Long>)
    ensures !r.ReadPanic?
    ensures r.Some? <==> address + 2 <= |cells|
    ensures r.Some? ==> HighHalf(r.value) == cells[address] && LowHalf(r.value) == cells[address + 1]
  {
    if |cells| >= address + 2 then Some(JoinHalves(cells[address], cells[address + 1])) else None
  }

  /** The byte write with the guard `address >> 1 < len`: it either replaces
      the cell's high byte or reports the error and changes nothing. */
  function CheckedWriteByteEffect(cells: seq<Word>, address: Address, data: Byte): (e: Effect<Word>)
    ensures e.outcome == Ok || e == Effect(cells, Err(OUT_OF_BOUNDS))
    ensures e.outcome.Ok? <==> CellOf(address) < |cells|
    ensures e.outcome.Ok? ==> e.store == cells[CellOf(address) := WithHighByte(cells[CellOf(address)], data)]
  {
    var c := CellOf(address);
    if |cells| > c then Effect(cells[c := WithHighByte(cells[c], data)], Ok) else Effect(cells, Err(OUT_OF_BOUNDS))
  }

  /** The word write with the guard `address >> 1 < len`. */
  function CheckedWriteWordEffect(cells: seq<Word>, address: Address, data: Word): (e: Effect<Word>)
    ensures e.outcome == Ok || e == Effect(cells, Err(OUT_OF_BOUNDS))
    ensures e.outcome.Ok? <==> CellOf(address) < |cells|
    ensures e.outcome.Ok? ==> e.store == cells[CellOf(address) := data]
  {
    var c := CellOf(address);
    if |cells| > c then Effect(cells[c := data], Ok) else Effect(cells, Err(OUT_OF_BOUNDS))
  }

  /** The long write with the guard `(address >> 1) + 2 <= len`: all or
      nothing, and the long is read back at cell `address >> 1`. */
  function CheckedWriteLongEffect(cells: seq<Word>, address: Address, data: Long): (e: Effect<Word>)
    ensures e.outcome == Ok || e == Effect(cells, Err(OUT_OF_BOUNDS))
    ensures e.outcome.Ok? <==> CellOf(address) + 2 <= |cells|
    ensures e.outcome.Ok? ==> |e.store| == |cells| && CheckedReadLong(e.store, CellOf(address)) == Some(data)
    ensures e.outcome.Ok? ==>
      forall i :: 0 <= i < |cells| && !(CellOf(address) <= i < CellOf(address) + 2) ==> e.store[i] == cells[i]
  {
    var c := CellOf(address);
    if |cells| >= c + 2 then
      LongOfHalves(data);
      Effect(cells[c := HighHalf(data)][c + 1 := LowHalf(data)], Ok)
    else
      Effect(cells, Err(OUT_OF_BOUNDS))
  }

  /** Wherever the written reads succeed, the corrected reads return the same
      value; where the written ones panic or fail, the corrected ones report
      `None`. */
  lemma CheckedReadsAgree(cells: seq<Word>, address: Address)
    ensures ReadByte(cells, address).Some? ==> CheckedReadByte(cells, address) == ReadByte(cells, address)
    ensures ReadWord(cells, address).Some? ==> CheckedReadWord(cells, address) == ReadWord(cells, address)
    ensures ReadLong(cells, address).Some? ==> CheckedReadLong(cells, address) == ReadLong(cells, address)
    ensures !ReadByte(cells, address).Some? ==> CheckedReadByte(cells, address) == None
    ensures !ReadWord(cells, address).Some? ==> CheckedReadWord(cells, address) == None
    ensures !ReadLong(cells, address).Some? ==> CheckedReadLong(cells, address) == None
  {
  }

  /** Wherever the written writes succeed, the corrected writes leave the
      same cells; where the written ones panic, the corrected ones change
      nothing. */
  lemma CheckedWritesAgree(cells: seq<Word>, address: Address, b: Byte, w: Word, l: Long)
    ensures WriteByteEffect(cells, address, b).outcome.Ok? ==> CheckedWriteByteEffect(cells, address, b) == WriteByteEffect(cells, address, b)
    ensures WriteWordEffect(cells, address, w).outcome.Ok? ==> CheckedWriteWordEffect(cells, address, w) == WriteWordEffect(cells, address, w)
    ensures WriteLongEffect(cells, address, l).outcome.Ok? ==> CheckedWriteLongEffect(cells, address, l) == WriteLongEffect(cells, address, l)
    ensures !WriteLongEffect(cells, address, l).outcome.Ok? ==> CheckedWriteLongEffect(cells, address, l).store == cells
  {
  }
}

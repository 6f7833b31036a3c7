# rs68000 core: memory, CPU reset and fetch step, opcode-group table

A Dafny model of the working core of the rs68000 Motorola 68000 emulator:

- **`Memory` and its backings** (`memory.dfy`, `byte_store.dfy`, `word_store.dfy`).
  The byte-addressed, big-endian backing is `impl Memory for [u8]`, and also
  `impl Memory for Box<[u8]>`, which is textually identical
  (src/memory.rs:172-238). Both are modelled once as `ByteStore`. The word-cell
  backing is `impl Memory for [u16]` (`WordStore`). Reads are functions of the
  store's contents. Each write is a method that updates an `array` in place,
  specified by an `Effect` function of the old contents.
- **`MemoryIter`** (`memory_iter.dfy`): the instruction-word cursor. It
  advances two bytes per item and refuses odd addresses.
- **The CPU** (`cpu.dfy`): register file and status register with their
  reset values, `CPU::new`, `init`, `fetch`, and one iteration of `run`'s
  `match self.state`.
- **The `OPCM` table** (`decoder.dfy`): the 16-entry
  opcode-group dispatch table over `OpCodeType`.

Values are bit-vectors (`bv8`, `bv16`, `bv32`), so Rust's shifts, ors and
truncating `as` casts appear as written. An address is a `u32` (an `int` below
2^32). The backings widen it to `usize`, so on a 64-bit target the guards'
`address + 3` never wraps.

Each access has three outcomes:

- a normal result;
- the guard's failure branch (`None`, or `Err("Address out of Bounds")`);
- a panic from Rust's own index check (`ReadPanic` / `WritePanic`).

The guards (`len >= address`, `len >= address + 1`, `len >= address + 3`) let
through the one address where the last index touched equals the length, and
there Rust panics. The contracts state the range where an access really
succeeds: `address + w <= len` for a `w`-byte access. A write that panics
midway keeps the bytes it stored before the bad index. See "## Findings".

The `[u16]` backing has a second quirk: reads name cell `address`, writes name
cell `address >> 1`. The model states where a written value can be read back
(cell `address >> 1`) and proves there is no general round trip at the same
address.

Some behaviours of the code that a reader of 68000 code might not expect,
all modelled as written:

- `StatusRegister::new` clears the supervisor flag, although a 68000 reset
  sets it.
- `Registers::new` sets `PC` to 0 rather than loading it from the reset
  vector.
- `fetch` does not touch `PC`; only the cursor's `next_address` advances.
- A `[u8]` and a `[u16]` store holding the same bytes answer byte reads
  differently (`WordStore.BackingsDisagreeOnByteRead`).
- A write whose guard admits the last byte or cell panics after a partial
  store; see "## Findings".

## Model

| member | source | states |
|---|---|---|
| Memory.JoinWord | src/memory.rs:57 | the shifted-and-ored word has the first byte as its high byte and the second as its low byte |
| Memory.JoinLong | src/memory.rs:67-70 | the assembled long has its four bytes in big-endian order |
| Memory.JoinHalves | src/memory.rs:134 | the assembled long has the first cell as high half and the second as low half |
| Memory.WordOfBytes | src/memory.rs:90-91 | splitting a word into `(v >> 8) as u8` and `v as u8` and re-joining gives it back |
| Memory.LongOfBytes | src/memory.rs:101-104 | splitting a long into its four truncated shifts and re-joining gives it back |
| Memory.LongOfHalves | src/memory.rs:163-164 | splitting a long into `(v >> 16) as u16` and `v as u16` and re-joining gives it back |
| Memory.HalvesOfLong | src/memory.rs:101-104 | the bytes of a long's two halves are its four big-endian bytes |
| ByteStore.ReadByte | src/memory.rs:45-52 | `Some(mem[a])` exactly when `a < len`; `None` exactly when the guard fails (`a > len`); index panic exactly at `a == len` |
| ByteStore.ReadWord | src/memory.rs:54-61 | `Some` exactly when `a + 2 <= len`, high byte `mem[a]` and low byte `mem[a+1]`; `None` exactly when `len < a + 1`; panic exactly at `a + 1 == len` |
| ByteStore.ReadLong | src/memory.rs:63-75 | `Some` exactly when `a + 4 <= len`, byte `k` (most significant first) is `mem[a+k]`; `None` exactly when `len < a + 3`; panic exactly at `a + 3 == len` |
| ByteStore.WriteByteEffect | src/memory.rs:77-85 | succeeds exactly when `a < len` and stores the byte; no other byte changes; `Err("Address out of Bounds")` exactly when `a > len`; every failure leaves the store unchanged |
| ByteStore.WriteWordEffect | src/memory.rs:87-96 | succeeds exactly when `a + 2 <= len` and stores `v >> 8` at `a` and `v & 0xFF` at `a+1`; bytes outside `[a, a+2)` never change; `Err` leaves the store unchanged; the panic at `a + 1 == len` leaves only the high byte stored |
| ByteStore.WriteLongEffect | src/memory.rs:98-109 | succeeds exactly when `a + 4 <= len` and stores the four bytes most significant first; bytes outside `[a, a+4)` never change; `Err` leaves the store unchanged; the panic at `a + 3 == len` leaves three bytes stored |
| ByteStore.WriteByte | src/memory.rs:77-85 | the in-place write leaves the array and returns the outcome that `WriteByteEffect` gives for the old contents |
| ByteStore.WriteWord | src/memory.rs:87-96 | the in-place write leaves the array and returns the outcome that `WriteWordEffect` gives for the old contents |
| ByteStore.WriteLong | src/memory.rs:98-109 | the in-place write leaves the array and returns the outcome that `WriteLongEffect` gives for the old contents |
| ByteStore.ByteRoundTrip | src/memory.rs:45-85 | a byte written at `a < len` succeeds and reads back |
| ByteStore.WordRoundTrip | src/memory.rs:54-96 | a word written at `a` with `a + 2 <= len` succeeds and reads back |
| ByteStore.LongRoundTrip | src/memory.rs:63-109 | a long written at `a` with `a + 4 <= len` succeeds and reads back |
| ByteStore.WordLayoutExample | src/memory.rs:90-91 | writing `0x1234` at 0 leaves bytes `0x12, 0x34` |
| ByteStore.LongAsWords | src/memory.rs:101-104 | after a long write, word reads at `a` and `a+2` return its high and low halves |
| ByteStore.WordReadAfterDisjointWrite | src/memory.rs:87-96 | a word write does not change a word read at a disjoint span |
| ByteStore.LongReadAfterDisjointWrite | src/memory.rs:98-109 | a long write does not change a long read at a disjoint span |
| ByteStore.ByteGuardAdmitsLength | src/memory.rs:47-48 | a byte read or write at `len` passes the guard and panics |
| ByteStore.WordGuardAdmitsLastByte | src/memory.rs:89-91 | a word read or write at `len - 1` panics; the write has already stored the high byte |
| ByteStore.LongGuardAdmitsLastThree | src/memory.rs:100-104 | a long read or write at `len - 3` panics; the write has already stored three bytes |
| ByteStore.CheckedReadByte | src/memory.rs:47 | corrected guard: never panics, `Some(mem[a])` exactly when `a < len` |
| ByteStore.CheckedReadWord | src/memory.rs:56 | corrected guard: never panics, `Some` exactly when `a + 2 <= len`, big-endian |
| ByteStore.CheckedReadLong | src/memory.rs:65 | corrected guard: never panics, `Some` exactly when `a + 4 <= len`, big-endian |
| ByteStore.CheckedWriteByteEffect | src/memory.rs:79 | corrected guard: either stores the byte or returns `Err` with the store unchanged |
| ByteStore.CheckedWriteWordEffect | src/memory.rs:89 | corrected guard: all or nothing; on success the corrected read returns the word and bytes outside `[a, a+2)` are unchanged |
| ByteStore.CheckedWriteLongEffect | src/memory.rs:100 | corrected guard: all or nothing; on success the corrected read returns the long and bytes outside `[a, a+4)` are unchanged |
| ByteStore.CheckedReadsAgree | src/memory.rs:45-75 | the corrected reads agree with the written ones wherever those succeed and return `None` wherever those fail |
| ByteStore.CheckedWritesAgree | src/memory.rs:77-109 | the corrected writes agree with the written ones wherever those succeed and leave the store untouched where those fail |
| WordStore.CellOf | src/memory.rs:141 | `address >> 1` is the cell holding byte addresses `2c` and `2c + 1` |
| WordStore.ReadByte | src/memory.rs:113-120 | `Some` of the high byte of cell `a` (raw address) exactly when `a < len`; `None` when `a > len`; panic at `a == len` |
| WordStore.ReadWord | src/memory.rs:122-129 | `Some(cell[a])` exactly when `a < len`; `None` when `a > len`; panic at `a == len` |
| WordStore.ReadLong | src/memory.rs:131-138 | `Some` exactly when `a + 2 <= len`, with high half `cell[a]` and low half `cell[a+1]`; `None` when `len < a + 1`; panic at `a + 1 == len` |
| WordStore.WithHighByte | src/memory.rs:143 | the merged cell has the new byte as its high byte and keeps the old low byte |
| WordStore.WriteByteEffect | src/memory.rs:140-148 | succeeds exactly when `a >> 1 < len`; replaces only the high byte of cell `a >> 1` and keeps its low byte; no other cell changes; failures leave the store unchanged |
| WordStore.WriteWordEffect | src/memory.rs:150-158 | succeeds exactly when `a >> 1 < len` and stores the word in cell `a >> 1`; no other cell changes; failures leave the store unchanged |
| WordStore.WriteLongEffect | src/memory.rs:160-169 | succeeds exactly when `(a >> 1) + 2 <= len`; stores the high half at `a >> 1` and the low half at `(a >> 1) + 1`; other cells unchanged; `Err` leaves all unchanged; the panic leaves only the high half stored |
| WordStore.WriteByte | src/memory.rs:140-148 | the in-place write leaves the array and returns the outcome that `WriteByteEffect` gives for the old contents |
| WordStore.WriteWord | src/memory.rs:150-158 | the in-place write leaves the array and returns the outcome that `WriteWordEffect` gives for the old contents |
| WordStore.WriteLong | src/memory.rs:160-169 | the in-place write leaves the array and returns the outcome that `WriteLongEffect` gives for the old contents |
| WordStore.WordCellRoundTrip | src/memory.rs:122-158 | a word written at `a` is read back at cell address `a >> 1` |
| WordStore.ByteCellRoundTrip | src/memory.rs:113-148 | a byte written at `a` is read back at cell address `a >> 1` |
| WordStore.LongCellRoundTrip | src/memory.rs:131-169 | a long written at `a` is read back at cell address `a >> 1` |
| WordStore.WordRoundTripIff | src/memory.rs:122-158 | reading back at the written address returns the word exactly when the address is 0 or the cell already held it |
| WordStore.WordRoundTripFails | src/memory.rs:122-158 | writing `0x1234` at address 2 of a zeroed three-cell store succeeds, yet the read at 2 returns 0 |
| WordStore.ByteWriteIgnoresParity | src/memory.rs:140-148 | byte writes at `2c` and `2c + 1` have the same effect |
| WordStore.BackingsDisagreeOnByteRead | src/memory.rs:45-120 | the bytes `0x12, 0x34` as a `[u8]` store and as the one-cell `[u16]` store `[0x1234]`: at address 1 the first reads `0x34` and the second panics; at address 0 both read `0x12` |
| WordStore.GuardsAdmitLastCell | src/memory.rs:115-169 | reads at cell `len` and long reads at `len - 1` panic; writes to cell `len` panic with the store unchanged; a long write to cell `len - 1` panics after storing the high half |
| WordStore.CheckedReadByte | src/memory.rs:115 | corrected guard: never panics, the high byte of cell `a` exactly when `a < len` |
| WordStore.CheckedReadWord | src/memory.rs:124 | corrected guard: never panics, cell `a` exactly when `a < len` |
| WordStore.CheckedReadLong | src/memory.rs:133 | corrected guard: never panics, `Some` exactly when `a + 2 <= len`, high half `cell[a]`, low half `cell[a+1]` |
| WordStore.CheckedWriteByteEffect | src/memory.rs:142 | corrected guard: either replaces the high byte of cell `a >> 1` or returns `Err` with the store unchanged |
| WordStore.CheckedWriteWordEffect | src/memory.rs:152 | corrected guard: either stores the word in cell `a >> 1` or returns `Err` with the store unchanged |
| WordStore.CheckedWriteLongEffect | src/memory.rs:162 | corrected guard: all or nothing; on success the corrected long read at `a >> 1` returns the long and the other cells are unchanged |
| WordStore.CheckedReadsAgree | src/memory.rs:113-138 | the corrected reads agree with the written ones wherever those succeed and return `None` wherever those fail |
| WordStore.CheckedWritesAgree | src/memory.rs:140-169 | the corrected writes agree with the written ones wherever those succeed; where the long write panics, the corrected one changes nothing |
| MemoryIterator.NextSpec | src/memory.rs:28-41 | yields a word exactly when the address is even, `a + 2 <= len`, and `a + 2` fits in `u32`; the word is the big-endian pair at `a` and `a+1`, and `next_address` becomes `a + 2`; an odd address is a failure that leaves `next_address` unchanged; each failed read is a failure, not a value: `ReadFailed` exactly when the guard fails (`len < a + 1`), `IndexOutOfRange` exactly when it lets the last byte through (`a + 1 == len`) |
| MemoryIterator.Walk | src/memory.rs:28-41 | `n` successive calls of `next`: at most `n` results, the first is that of `NextSpec`, every result but the last is a word, and the walk ends early only on a failure |
| MemoryIterator.WalkYieldsConsecutiveWords | src/memory.rs:28-41 | from an even address with room for `n` words, `n` calls yield the words at `a, a+2, …, a+2(n-1)` in order |
| MemoryIterator.OddStartFails | src/memory.rs:29-40 | from an odd address the first call fails and nothing is yielded |
| MemoryIterator.NextAgreesWithCheckedRead | src/memory.rs:29-37 | the cursor yields a word exactly when the corrected word read succeeds, and yields that word |
| MemoryIterator.MemoryIter.constructor | src/memory.rs:12-17 | the cursor starts at the given address over the given store |
| MemoryIterator.MemoryIter.Next | src/memory.rs:28-41 | the result and the new `next_address` are those of `NextSpec` at the old address |
| Cpu.NewStatusRegister | src/cpu.rs:103-114 | trace, supervisor and the five condition flags are false, and the interrupt mask is 0 |
| Cpu.ClearIsReset | src/cpu.rs:103-114 | the reset status register is the only one with every flag clear and mask 0 |
| Cpu.NewRegisters | src/cpu.rs:78-99 | D0–D7, A0–A6, SP and PC are 0, and the status register is clear |
| Cpu.ZeroedIsReset | src/cpu.rs:78-99 | the reset register file is the only zeroed one |
| Cpu.StepSpec | src/cpu.rs:126-143 | from `Fetching`: moves to `Decoding` exactly when the cursor yields a word, which is the big-endian word at the fetch address, and the cursor advances by 2; otherwise a fatal failure with the state still `Fetching`; from `Decoding`, `Executing`, `Halting`: nothing changes |
| Cpu.RunSteps | src/cpu.rs:125-143 | `n` iterations of the loop: zero iterations change nothing; the loop stops only on a failed fetch, from `Fetching`, which it is still in, with a non-word cause. `IdleStatesAreFixed` and `RunAfterInit` state where it ends |
| Cpu.IdleStatesAreFixed | src/cpu.rs:131-135 | any number of iterations from `Decoding`, `Executing` or `Halting` leaves the state and cursor unchanged |
| Cpu.RunAfterInit | src/cpu.rs:118-137 | after `init`, with the cursor at 0, any positive number of iterations ends in `Decoding` at address 2 when the store has two bytes; otherwise the first fetch is fatal |
| Cpu.HaltingIsAbsorbing | src/cpu.rs:135 | iterations from `Halting` never leave it |
| Cpu.FreshStoreFetchesZero | src/cpu.rs:69-72 | over the zero-filled `MEMORY_CAPACITY`-byte store, the first fetch reads 0 and moves to `Decoding` at 2 |
| Cpu.CPU.New | src/cpu.rs:66-74 | starts in `Halting` with reset registers and a fresh zero-filled store of `MEMORY_CAPACITY` bytes |
| Cpu.CPU.Init | src/cpu.rs:118-120 | the state becomes `Fetching`; registers and store are unchanged |
| Cpu.CPU.Fetch | src/cpu.rs:139-144 | returns the cursor's next result; a non-word result is the failure the source panics on |
| Cpu.CPU.Step | src/cpu.rs:125-143 | the new state, the cursor address and the outcome are those of `StepSpec`; registers are unchanged |
| Decoder.Discriminant | src/decoder.rs:5-41 | every variant sits in `OPCM` at its own declaration index (below 16) |
| Decoder.OpcmIsBijection | src/decoder.rs:24-41 | `OPCM` has 16 entries, and each entry's discriminant is its index, so the table is a bijection onto the enum |
| Decoder.NoDuplicate | src/decoder.rs:24-41 | no two indices of `OPCM` hold the same variant |
| Decoder.EachVariantOnce | src/decoder.rs:5-41 | each variant appears at exactly one index |
| Decoder.OpcmEntries | src/decoder.rs:25-40 | index 0 is `BitManipulation`; 1, 2, 3 are `MovByte`, `MovLong`, `MovWord`; 7 is `Moveq`; 10 is `Reserved`; 15 is `Extension` |

## Left out

- src/instruction.rs (the `Instructions` enum and its `Display`): every rendering but one is `todo!()`, and the operand types are not defined in the files at hand, so there is no behaviour to model.
- The `decode*` routines (src/decoder.rs:81-147) are all `todo!()`. The unused `AddressingMode` enum (src/decoder.rs:43-58) is not modelled either. No decoding or extension-word semantics are invented.
- `execute` (src/cpu.rs:145-147) is `todo!()`. The never-ending `loop` of `run` is modelled as one iteration (`StepSpec`, `CPU.Step`) plus a step budget (`RunSteps`).
- Panics, `todo!()` and `unwrap` failures are failure results. Process termination and unwinding are not modelled. The state after a panic is the state at the point of the panic.
- `MemoryIter` is modelled only over the byte store, the one the CPU uses. The generic `M: Memory` and the `Memory`/`Processor`/`Decoder` traits are not modelled as such.
- `next_address += 2` overflow is modelled with debug-build (checked) arithmetic, as a failure. A release build would wrap `next_address` to 0. For a store shorter than 2^32 bytes, such as the CPU's 0x50_0000-byte store, the read at `0xFFFF_FFFE` would then fail anyway. A store of 2^32 bytes or more would instead yield the word at `0xFFFF_FFFE` in a release build, which the model does not capture.
- A 32-bit target is not modelled: there `usize` is 32 bits wide and the guards' `address as usize + 1` and `+ 3` can wrap near `u32::MAX`. Every backing is modelled as on a 64-bit target.
- `MemoryBus`, field visibility, and `fetch` taking `&MemoryIter` while calling `next` are Rust compile-level issues, not semantics.
- The 0x50_0000-byte allocation appears only in `CPU.New` and `FreshStoreFetchesZero`. Every other lemma is stated for a store of any length.
- Cpu.CPU.Step: requires that the cursor runs over the CPU's own store, as `run` creates it (src/cpu.rs:124). No other cursor is considered.

## Findings

| source | as written | input that shows it | evidently intended | confidence | as-written member | corrected member |
|---|---|---|---|---|---|---|
| src/memory.rs:47 (also 79, 175, 207) | guard `self.len() >= address`, then `self[address]` | `address == len`: the guard passes and the index panics | fail with `None` / `Err` when `address >= len` | high; not executed | ByteStore.ByteGuardAdmitsLength | ByteStore.CheckedReadByte, ByteStore.CheckedWriteByteEffect |
| src/memory.rs:56 (also 89, 184, 217) | guard `self.len() >= address + 1`, then `self[address + 1]` | `address == len - 1`: the read panics; the write stores the high byte, then panics | fail cleanly when `address + 2 > len` | high; not executed | ByteStore.WordGuardAdmitsLastByte | ByteStore.CheckedReadWord, ByteStore.CheckedWriteWordEffect |
| src/memory.rs:65 (also 100, 193, 228) | guard `self.len() >= address + 3`, then `self[address + 3]` | `address == len - 3`: the read panics; the write stores three bytes, then panics | fail cleanly when `address + 4 > len` | high; not executed | ByteStore.LongGuardAdmitsLastThree | ByteStore.CheckedReadLong, ByteStore.CheckedWriteLongEffect |
| src/memory.rs:115 (also 124, 133, 142, 152, 162) | `[u16]` guards `self.len() >= address` (long: `>= address + 1`), then index the cell | a read at cell `len`, a write to cell `len`, a long write to cell `len - 1` (which stores the high half, then panics) | fail cleanly when the cell, or for a long the cell after it, is past the end | high; not executed | WordStore.GuardsAdmitLastCell | WordStore.CheckedReadByte, WordStore.CheckedReadWord, WordStore.CheckedReadLong, WordStore.CheckedWriteByteEffect, WordStore.CheckedWriteWordEffect, WordStore.CheckedWriteLongEffect |

The cursor is modelled as written, over the as-written word read.
`MemoryIterator.NextAgreesWithCheckedRead` proves it yields exactly what the
corrected read yields. So the fetch step behaves the same under either guard;
the off-by-one changes only which failure is reported. The corrected `[u16]`
functions fix only the guards. They keep the source's cell mapping, where
reads index by the raw address and writes by `address >> 1`, because which
mapping was intended is unclear.

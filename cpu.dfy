/** The CPU: its register file and status register with their reset values,
    the `Fetching/Decoding/Executing/Halting` state, and one iteration of the
    `run` loop. In the current code only the `Fetching` arm does anything: it
    takes one word from the instruction cursor and moves to `Decoding`; the
    other three arms are empty, so the loop then spins in `Decoding`. */
module Cpu {
  import opened Memory
  import opened MemoryIterator

  datatype CPUState = Fetching | Decoding | Executing | Halting

  datatype StatusRegister = StatusRegister(
    traceMode: bool,
    supervisorState: bool,
    interruptMask: bv8,
    extend: bool,
    negative: bool,
    zero: bool,
    overflow: bool,
    carry: bool)

  datatype Registers = Registers(
    d0: Long, d1: Long, d2: Long, d3: Long, d4: Long, d5: Long, d6: Long, d7: Long,
    a0: Long, a1: Long, a2: Long, a3: Long, a4: Long, a5: Long, a6: Long,
    sp: Long,
    pc: Long,
    sr: StatusRegister)

  /** Data register `Dn`. */
  function DataRegister(r: Registers, n: nat): Long
    requires n < 8
  {
    match n
    case 0 => r.d0 case 1 => r.d1 case 2 => r.d2 case 3 => r.d3
    case 4 => r.d4 case 5 => r.d5 case 6 => r.d6 case _ => r.d7
  }

  /** Address register `An` (`A7` is the stack pointer, kept apart as `sp`). */
  function AddressRegister(r: Registers, n: nat): Long
    requires n < 7
  {
    match n
    case 0 => r.a0 case 1 => r.a1 case 2 => r.a2 case 3 => r.a3
    case 4 => r.a4 case 5 => r.a5 case _ => r.a6
  }

  /** No flag set and interrupt mask 0. */
  predicate IsClear(sr: StatusRegister)
  {
    !sr.traceMode && !sr.supervisorState && sr.interruptMask == 0 &&
    !sr.extend && !sr.negative && !sr.zero && !sr.overflow && !sr.carry
  }

  /** `StatusRegister::new` */
  function NewStatusRegister(): (sr: StatusRegister)
    ensures IsClear(sr)
  {
    StatusRegister(false, false, 0, false, false, false, false, false)
  }

  /** The reset status register is the only clear one. */
  lemma ClearIsReset(sr: StatusRegister)
    requires IsClear(sr)
    ensures sr == NewStatusRegister()
  {
  }

  /** Every data and address register, `SP` and `PC` are 0, and the status
      register is clear. */
  predicate IsZeroed(r: Registers)
  {
    (forall n :: 0 <= n < 8 ==> DataRegister(r, n) == 0) &&
    (forall n :: 0 <= n < 7 ==> AddressRegister(r, n) == 0) &&
    r.sp == 0 && r.pc == 0 && IsClear(r.sr)
  }

  /** `Registers::new` */
  function NewRegisters(): (r: Registers)
    ensures IsZeroed(r)
  {
    Registers(0, 0, 0, 0, 0, 0, 0, 0, 0, 0, 0, 0, 0, 0, 0, 0, 0, NewStatusRegister())
  }

  /** The reset register file is the only zeroed one. */
  lemma ZeroedIsReset(r: Registers)
    requires IsZeroed(r)
    ensures r == NewRegisters()
  {
    assert DataRegister(r, 0) == 0 && DataRegister(r, 1) == 0 && DataRegister(r, 2) == 0 && DataRegister(r, 3) == 0;
    assert DataRegister(r, 4) == 0 && DataRegister(r, 5) == 0 && DataRegister(r, 6) == 0 && DataRegister(r, 7) == 0;
    assert AddressRegister(r, 0) == 0 && AddressRegister(r, 1) == 0 && AddressRegister(r, 2) == 0;
    assert AddressRegister(r, 3) == 0 && AddressRegister(r, 4) == 0 && AddressRegister(r, 5) == 0;
    assert AddressRegister(r, 6) == 0;
    ClearIsReset(r.sr);
  }

  // ---------------------------------------------------------------------
  // One iteration of `run`
  // ---------------------------------------------------------------------

  /** What the `run` loop carries from one iteration to the next, besides
      the store: the CPU state and the cursor's `next_address`. */
  datatype Config = Config(state: CPUState, fetchAddress: Address)

  /** What one iteration did: nothing, fetched the word `ins`, or failed
      fatally in `fetch` (a panic in the source). */
  datatype StepOutcome = Idle | Fetched(ins: Word) | Fatal(cause: NextResult)

  datatype Transition = Transition(outcome: StepOutcome, next: Config)

  /** One iteration of the `run` loop's `match self.state`. */
  function StepSpec(mem: seq<Byte>, c: Config): (t: Transition)
    ensures c.state != Fetching ==> t == Transition(Idle, c)
    ensures c.state == Fetching ==> !t.outcome.Idle?
    ensures t.outcome.Fetched? <==>
      c.state == Fetching && c.fetchAddress % 2 == 0 &&
      c.fetchAddress + 2 <= |mem| && c.fetchAddress + 2 < 0x1_0000_0000
    ensures t.outcome.Fetched? ==>
      t.next == Config(Decoding, c.fetchAddress + 2) &&
      HighByte(t.outcome.ins) == mem[c.fetchAddress] && LowByte(t.outcome.ins) == mem[c.fetchAddress + 1]
    ensures t.outcome.Fatal? ==> t.next.state == Fetching && !t.outcome.cause.Item?
  {
    match c.state
    case Fetching =>
      var adv := NextSpec(mem, c.fetchAddress);
      if adv.result.Item? then Transition(Fetched(adv.result.word), Config(Decoding, adv.nextAddress))
      else Transition(Fatal(adv.result), Config(Fetching, adv.nextAddress))
    case Decoding => Transition(Idle, c)
    case Executing => Transition(Idle, c)
    case Halting => Transition(Idle, c)
  }

  /** Where the loop stands after some iterations: still running, or stopped
      by a fatal fetch failure. */
  datatype RunResult = Running(config: Config) | Stopped(config: Config, cause: NextResult)

  /** `n` iterations of the `run` loop (the loop itself never ends; this is a
      step budget). The loop stops only on a failed fetch, which leaves the
      CPU in `Fetching`; while running it never goes back to `Fetching`
      once it has left it. */
  function RunSteps(mem: seq<Byte>, c: Config, n: nat): (r: RunResult)
    ensures r.Stopped? ==> r.config.state == Fetching && !r.cause.Item?
    ensures r.Stopped? ==> n > 0 && c.state == Fetching
    ensures n == 0 ==> r == Running(c)
    decreases n
  {
    if n == 0 then Running(c)
    else
      var t := StepSpec(mem, c);
      if t.outcome.Fatal? then Stopped(t.next, t.outcome.cause) else RunSteps(mem, t.next, n - 1)
  }

  /** `Decoding`, `Executing` and `Halting` are fixed points of the loop. */
  lemma {:induction false} IdleStatesAreFixed(mem: seq<Byte>, c: Config, n: nat)
    requires c.state != Fetching
    ensures RunSteps(mem, c, n) == Running(c)
    decreases n
  {
    if n > 0 {
      IdleStatesAreFixed(mem, c, n - 1);
    }
  }

  /** After `init`, with the cursor at 0 as `run` creates it, any positive
      number of iterations fetches exactly one word and then stays in
      `Decoding`; with fewer than two bytes of store the first fetch is fatal. */
  lemma RunAfterInit(mem: seq<Byte>, n: nat)
    requires n > 0
    ensures |mem| >= 2 ==> RunSteps(mem, Config(Fetching, 0), n) == Running(Config(Decoding, 2))
    ensures |mem| < 2 ==> RunSteps(mem, Config(Fetching, 0), n).Stopped?
    ensures |mem| < 2 ==> RunSteps(mem, Config(Fetching, 0), n).config == Config(Fetching, 2)
  {
    if |mem| >= 2 {
      IdleStatesAreFixed(mem, Config(Decoding, 2), n - 1);
    }
  }

  /** A step from `Halting` changes nothing, so `Halting` is absorbing. */
  lemma HaltingIsAbsorbing(mem: seq<Byte>, address: Address, n: nat)
    ensures RunSteps(mem, Config(Halting, address), n) == Running(Config(Halting, address))
  {
  }

  /** The zero-filled store that `CPU::new` allocates holds the word 0 at
      address 0: the first fetch after `init` reads 0 and advances to 2. */
  lemma FreshStoreFetchesZero()
    ensures StepSpec(seq(MEMORY_CAPACITY, _ => 0 as Byte), Config(Fetching, 0))
         == Transition(Fetched(0), Config(Decoding, 2))
  {
  }

  // ---------------------------------------------------------------------
  // The CPU object
  // ---------------------------------------------------------------------

  class CPU {
    var registers: Registers
    var state: CPUState
    /** `memory_bus.memory`: the boxed byte store, allocated once. */
    const memory: array<Byte>

    /** `CPU::new` */
    constructor New()
      ensures registers == NewRegisters() && state == Halting
      ensures fresh(memory) && memory.Length == MEMORY_CAPACITY
      ensures forall i :: 0 <= i < memory.Length ==> memory[i] == 0
    {
      registers := NewRegisters();
      state := Halting;
      memory := new Byte[MEMORY_CAPACITY](_ => 0);
    }

    /** `init` */
    method Init()
      modifies this
      ensures state == Fetching
      ensures registers == old(registers)
    {
      state := Fetching;
    }

    /** `fetch`: the next word of the cursor. The source panics when the
        cursor yields nothing; here that is a non-`Item` result. */
    method Fetch(iter: MemoryIter) returns (r: NextResult)
      modifies iter
      ensures Advance(r, iter.nextAddress) == NextSpec(iter.mem[..], old(iter.nextAddress))
    {
      r := iter.Next();
    }

    /** One iteration of `run`'s loop, with `iter` the cursor `run` created
        over this CPU's store. */
    method Step(iter: MemoryIter) returns (r: StepOutcome)
      requires iter.mem == memory
      modifies this, iter
      ensures Transition(r, Config(state, iter.nextAddress))
           == StepSpec(memory[..], Config(old(state), old(iter.nextAddress)))
      ensures registers == old(registers)
    {
      match state {
        case Fetching =>
          var w := Fetch(iter);
          if w.Item? {
            state := Decoding;
            r := Fetched(w.word);
          } else {
            r := Fatal(w);
          }
        case Decoding =>
          r := Idle;
        case Executing =>
          r := Idle;
        case Halting =>
          r := Idle;
      }
    }
  }
}

/** `MemoryIter`, the instruction-word cursor that `Memory::iter` creates,
    over the byte-addressed backing the CPU owns (`Box<[u8]>`).

    `next` never returns `None` in the source: an odd address reaches
    `todo!`, a failed word read reaches `unwrap` on `None`, and a read the
    guard lets through to a bad index panics inside the read. The model keeps
    each of these as its own failure result. `next_address += 2` on a `u32`
    is modelled as overflow-checked (the debug build), so at `0xFFFF_FFFE`
    it is a failure too. */
module MemoryIterator {
  import opened Memory
  import opened ByteStore

  /** What one call of `next` ends in. */
  datatype NextResult =
    | Item(word: Word)
    | MisalignedAddress   // `todo!("Handle wrong addressing")`
    | AddressOverflow     // `next_address += 2` overflows `u32`
    | ReadFailed          // the read returned `None`; `unwrap` panics
    | IndexOutOfRange     // the read itself panicked on its index

  /** The result of one `next` and the value `next_address` is left with. */
  datatype Advance = Advance(result: NextResult, nextAddress: Address)

  /** One call of `next` from `address` over the store `mem`. */
  function NextSpec(mem: seq<Byte>, address: Address): (r: Advance)
    ensures r.result.Item? <==> address % 2 == 0 && address + 2 <= |mem| && address + 2 < 0x1_0000_0000
    ensures r.result.Item? ==>
      r.nextAddress == address + 2 &&
      HighByte(r.result.word) == mem[address] && LowByte(r.result.word) == mem[address + 1]
    ensures r.result.MisalignedAddress? <==> address % 2 == 1
    ensures r.result.AddressOverflow? <==> address == 0xFFFF_FFFE
    ensures r.result.MisalignedAddress? || r.result.AddressOverflow? ==> r.nextAddress == address
    ensures r.result.ReadFailed? <==>
      address % 2 == 0 && address + 2 < 0x1_0000_0000 && |mem| < address + 1
    ensures r.result.IndexOutOfRange? <==>
      address % 2 == 0 && address + 2 < 0x1_0000_0000 && address + 1 == |mem|
    ensures r.result.ReadFailed? || r.result.IndexOutOfRange? ==> r.nextAddress == address + 2
  {
    if address % 2 == 0 then
      if address + 2 >= 0x1_0000_0000 then
        Advance(AddressOverflow, address)
      else
        match ReadWord(mem, address)
        case Some(w) => Advance(Item(w), address + 2)
        case None => Advance(ReadFailed, address + 2)
        case ReadPanic => Advance(IndexOutOfRange, address + 2)
    else
      Advance(MisalignedAddress, address)
  }

  /** The results of up to `n` successive calls of `next` from `address`,
      ending early at the first failure (which aborts the program): every
      result but the last is a word, and the walk is cut short only by a
      failure. */
  function Walk(mem: seq<Byte>, address: Address, n: nat): (r: seq<NextResult>)
    ensures |r| <= n
    ensures n > 0 ==> |r| > 0 && r[0] == NextSpec(mem, address).result
    ensures forall k :: 0 <= k < |r| - 1 ==> r[k].Item?
    ensures |r| < n ==> |r| > 0 && !r[|r| - 1].Item?
    decreases n
  {
    if n == 0 then []
    else
      var step := NextSpec(mem, address);
      if step.result.Item? then [step.result] + Walk(mem, step.nextAddress, n - 1) else [step.result]
  }

  /** From an even address with room for `n` words, `n` calls of `next` yield
      the `n` consecutive big-endian words, the `k`-th one at `address + 2k`. */
  lemma {:induction false} WalkYieldsConsecutiveWords(mem: seq<Byte>, address: Address, n: nat)
    requires address % 2 == 0
    requires address + 2 * n <= |mem| && address + 2 * n < 0x1_0000_0000
    ensures |Walk(mem, address, n)| == n
    ensures forall k :: 0 <= k < n ==>
      Walk(mem, address, n)[k] == Item(JoinWord(mem[address + 2 * k], mem[address + 2 * k + 1]))
    decreases n
  {
    if n > 0 {
      var step := NextSpec(mem, address);
      WordOfBytes(step.result.word);
      WalkYieldsConsecutiveWords(mem, address + 2, n - 1);
      var rest := Walk(mem, address + 2, n - 1);
      assert Walk(mem, address, n) == [step.result] + rest;
      forall k | 0 <= k < n
        ensures Walk(mem, address, n)[k] == Item(JoinWord(mem[address + 2 * k], mem[address + 2 * k + 1]))
      {
        if k > 0 {
          assert Walk(mem, address, n)[k] == rest[k - 1];
          assert address + 2 * k == (address + 2) + 2 * (k - 1);
        }
      }
    }
  }

  /** Started at an odd address, the first call already fails, and nothing
      is yielded. */
  lemma OddStartFails(mem: seq<Byte>, address: Address, n: nat)
    requires address % 2 == 1 && n > 0
    ensures Walk(mem, address, n) == [MisalignedAddress]
  {
  }

  /** The yielded word is the one the corrected read returns: the guard's
      off-by-one in the word read changes only which failure is reported. */
  lemma NextAgreesWithCheckedRead(mem: seq<Byte>, address: Address)
    requires address % 2 == 0 && address + 2 < 0x1_0000_0000
    ensures NextSpec(mem, address).result.Item? <==> CheckedReadWord(mem, address).Some?
    ensures NextSpec(mem, address).result.Item? ==>
      NextSpec(mem, address).result.word == CheckedReadWord(mem, address).value
  {
  }

  /** `MemoryIter`: a cursor over a byte store. */
  class MemoryIter {
    /** `mem: &'a mut M`: the store, never reassigned. */
    const mem: array<Byte>
    /** `next_address` */
    var nextAddress: Address

    /** `Memory::iter(address)` */
    constructor (mem: array<Byte>, address: Address)
      ensures this.mem == mem && nextAddress == address
    {
      this.mem := mem;
      nextAddress := address;
    }

    /** `Iterator::next` */
    method Next() returns (r: NextResult)
      modifies this
      ensures Advance(r, nextAddress) == NextSpec(mem[..], old(nextAddress))
    {
      if nextAddress % 2 == 0 {
        var current: int := nextAddress;
        if current + 2 >= 0x1_0000_0000 {
          return AddressOverflow;
        }
        nextAddress := current + 2;
        var read := ReadWord(mem[..], current);
        match read {
          case Some(w) => r := Item(w);
          case None => r := ReadFailed;
          case ReadPanic => r := IndexOutOfRange;
        }
      } else {
        r := MisalignedAddress;
      }
    }
  }
}

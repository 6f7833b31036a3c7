/** The opcode-group dispatch table `OPCM`: one `OpCodeType` per value of an
    instruction word's top four bits. The decode routines it would dispatch
    to have no behaviour yet, so only the table is modelled. */
module Decoder {

  datatype OpCodeType =
    | BitManipulation
    | MovByte
    | MovLong
    | MovWord
    | Misc
    | AddqSubq
    | Branch
    | Moveq
    | OrDiv
    | Sub
    | Reserved
    | CmpEor
    | AndMul
    | Add
    | Shift
    | Extension

  /** `OPCM` */
  const OPCM: seq<OpCodeType> := [
    BitManipulation,
    MovByte,
    MovLong,
    MovWord,
    Misc,
    AddqSubq,
    Branch,
    Moveq,
    OrDiv,
    Sub,
    Reserved,
    CmpEor,
    AndMul,
    Add,
    Shift,
    Extension
  ]

  /** The position of a variant in the enum's declaration, its discriminant:
      the table lists every variant at its own discriminant. */
  function Discriminant(t: OpCodeType): (i: nat)
    ensures i < |OPCM| && OPCM[i] == t
  {
    match t
    case BitManipulation => 0
    case MovByte => 1
    case MovLong => 2
    case MovWord => 3
    case Misc => 4
    case AddqSubq => 5
    case Branch => 6
    case Moveq => 7
    case OrDiv => 8
    case Sub => 9
    case Reserved => 10
    case CmpEor => 11
    case AndMul => 12
    case Add => 13
    case Shift => 14
    case Extension => 15
  }

  /** The table has one entry per 4-bit group index, and reading an entry and
      taking its discriminant gives the index back: with `Discriminant`
      (every variant is at its discriminant) the table is a bijection from
      the 16 indices onto the enum. */
  lemma OpcmIsBijection()
    ensures |OPCM| == 16
    ensures forall i :: 0 <= i < |OPCM| ==> Discriminant(OPCM[i]) == i
  {
  }

  /** No variant appears twice in the table. */
  lemma NoDuplicate(i: nat, j: nat)
    requires i < j < |OPCM|
    ensures OPCM[i] != OPCM[j]
  {
  }

  /** Each variant appears exactly once. */
  lemma EachVariantOnce(t: OpCodeType)
    ensures forall i :: 0 <= i < |OPCM| ==> (OPCM[i] == t <==> i == Discriminant(t))
  {
  }

  /** Entries named by the table's layout: the three move groups in the
      order byte, long, word, and the fixed groups at 0, 7, 10 and 15. */
  lemma OpcmEntries()
    ensures OPCM[0] == BitManipulation
    ensures OPCM[1] == MovByte && OPCM[2] == MovLong && OPCM[3] == MovWord
    ensures OPCM[7] == Moveq
    ensures OPCM[10] == Reserved
    ensures OPCM[15] == Extension
  {
  }
}

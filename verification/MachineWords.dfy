/** The ranges of the source's unsigned words. */
module MachineWords {
  const U16: nat := 0x1_0000
  const U16_MAX: nat := U16 - 1
  const U32: nat := 0x1_0000_0000
  const U32_MAX: nat := U32 - 1
  const U64: nat := 0x1_0000_0000_0000_0000

  /** They are those of the machine's words: every word lies below, and the one with all bits set
      is the last. */
  lemma WordRanges(x: bv16, y: bv32, z: bv64)
    ensures x as nat < U16 && y as nat < U32 && z as nat < U64
    ensures (!(0 as bv16)) as nat == U16_MAX && (!(0 as bv32)) as nat == U32_MAX && (!(0 as bv64)) as nat == U64 - 1
  {
  }
}

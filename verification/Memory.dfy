/** The 32-bit address space: one word per 4-byte address, and the sizes of chunks.

    A word that was never written reads as zero. Addresses, sizes and words are
    unbounded integers here; every place where the program's 32-bit arithmetic could
    wrap is either excluded by an invariant (all chunks end below ADDRESS_LIMIT)
    or written out. */
module Memory {
  type Mem = map<int, int>

  const ADDRESS_LIMIT: int := 0x1_0000_0000

  const SIZE_SZ := 4
  const MALLOC_ALIGNMENT := 8
  const MALLOC_ALIGN_MASK := 7
  const MINSIZE := 16
  const PREV_INUSE := 1

  function At(m: Mem, a: int): int {
    if a in m then m[a] else 0
  }

  /** The two list links, present only while a chunk is free. */
  function Fd(m: Mem, p: int): int { At(m, p + 8) }
  function Bk(m: Mem, p: int): int { At(m, p + 12) }
}

/** The byte-addressed memory that every collector of this project works on. */
module Memory {

  /** Maps an address to the word (or payload byte) that starts there. Cells
      that were never written read as zero. */
  type Mem = map<int, int>

  function Rd(m: Mem, a: int): int {
    if a in m then m[a] else 0
  }

  /** Copies n cells to dst from delta above it, lowest address first, the
      direction in which an overlapping slide towards lower addresses is safe. */
  function CopyCells(m: Mem, dst: int, delta: int, n: nat): (r: Mem)
    requires 0 <= delta || delta + n <= 0
    ensures forall a {:trigger Rd(r, a)} :: Rd(r, a) == if dst <= a < dst + n then Rd(m, a + delta) else Rd(m, a)
    decreases n
  {
    if n == 0 then m
    else
      var step := m[dst := Rd(m, dst + delta)];
      assert forall a {:trigger Rd(step, a)} :: Rd(step, a) == if a == dst then Rd(m, dst + delta) else Rd(m, a);
      CopyCells(step, dst + 1, delta, n - 1)
  }
}

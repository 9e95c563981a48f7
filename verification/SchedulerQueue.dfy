/** The growable circular buffers of the thread scheduler (scheduler-queue.c). */
module SchedulerQueue {
  import opened Arithmetic
  import opened Objects
  import opened Probing

  const BUFFER_SIZE := 1024

  /** The allocation size of a buffer is computed as a C int. */
  const MAX_SIZE := 0x800_0000

  ghost predicate IsCapacity(size: int) {
    exists k: nat {:trigger Pow2(k)} :: k <= 17 && size == BUFFER_SIZE * Pow2(k)
  }

  /** Entries between two positions of a ring of the given size. */
  function Distance(rp: int, wp: int, size: int): int {
    if rp <= wp then wp - rp else wp - rp + size
  }

  /** The same as computed: the difference of two 32-bit positions wraps before
      the 64-bit size is added. */
  function WrappedDistance(rp: int, wp: int, size: int): int
    requires size > 0
  {
    (Wrap(wp - rp) + size) % size
  }

  /** The computation is right for all positions of a ring exactly when the
      size divides two to the thirty-second. */
  lemma WrapIsHarmless(size: int)
    requires 0 < size <= WORD
    ensures (forall rp, wp {:trigger Distance(rp, wp, size)} :: 0 <= rp < size && 0 <= wp < size ==>
      WrappedDistance(rp, wp, size) == Distance(rp, wp, size)) <==> WORD % size == 0
  {
    hide Pow2, Wrap;
    forall rp, wp {:trigger Distance(rp, wp, size)} | 0 <= rp < size && 0 <= wp < size
      ensures WrappedDistance(rp, wp, size) == Distance(rp, wp, size) <==> rp <= wp || WORD % size == 0
    {
      DistanceOf(rp, wp, size);
    }
    if size == 1 { DivisionIs(WORD, 1, WORD, 0); } else { assert Distance(1, 0, size) == size - 1; }
  }

  lemma DistanceOf(rp: int, wp: int, size: int)
    requires 0 <= rp < size <= WORD && 0 <= wp < size
    ensures WrappedDistance(rp, wp, size) == Distance(rp, wp, size) <==> rp <= wp || WORD % size == 0
  {
    hide Pow2;
    if rp <= wp {
      WrapOf(wp - rp, 0);
      DivisionIs(wp - rp + size, size, 1, wp - rp);
    } else {
      WrapOf(wp - rp, 1);
      var q, r := WORD / size, WORD % size;
      var d := wp - rp + size;
      assert WORD == q * size + r;
      if d + r < size {
        DivisionIs(WORD + d, size, q, d + r);
      } else {
        assert (q + 1) * size == q * size + size;
        DivisionIs(WORD + d, size, q + 1, d + r - size);
      }
    }
  }

  lemma WrapOf(x: int, q: int)
    requires 0 <= x + q * WORD < WORD
    ensures Wrap(x) == x + q * WORD
  {
    DivisionIs(x, WORD, -q, x + q * WORD);
  }

  lemma CapacityDividesWord(size: int)
    requires IsCapacity(size)
    ensures BUFFER_SIZE <= size <= WORD && WORD % size == 0
  {
    var k: nat :| k <= 17 && size == BUFFER_SIZE * Pow2(k);
    hide IsCapacity;
    assert Pow2(10) == BUFFER_SIZE;
    Pow2Adds(10, k);
    Pow2Of32();
    Pow2Adds(22 - k, 10 + k);
    DivisionIs(WORD, size, Pow2(22 - k), 0);
    AtLeastOne(Pow2(22 - k), size);
  }

  class CircularBuffer {
    var writePointer: int
    var readPointer: int
    const size: int
    const keys: array<int>

    ghost predicate Valid()
      reads this
    {
      && IsCapacity(size) && keys.Length == size
      && 0 <= readPointer < size && 0 <= writePointer < size
    }

    /** The live entries, oldest first. */
    ghost function Contents(): seq<int>
      requires Valid()
      reads this, keys
    {
      Live(keys[..], readPointer, writePointer)
    }

    constructor (size: int)
      requires IsCapacity(size)
      ensures Valid() && Contents() == [] && this.size == size && fresh(keys)
      ensures readPointer == 0
    {
      CapacityDividesWord(size);
      this.size := size;
      keys := new int[size];
      writePointer, readPointer := 0, 0;
    }

    predicate IsFull()
      requires Valid()
      reads this
    {
      (writePointer + 1) % size == readPointer
    }

    predicate IsEmpty()
      requires Valid()
      reads this
    {
      readPointer == writePointer
    }

    /** One slot always stays free, so that full and empty can be told apart. */
    lemma FullAndEmpty()
      requires Valid()
      ensures |Contents()| == Distance(readPointer, writePointer, size)
      ensures IsFull() <==> |Contents()| == size - 1
      ensures IsEmpty() <==> Contents() == []
    {
      CapacityDividesWord(size);
      NextPosition(writePointer, size);
    }

    /** CircularBufferEnque. On a full buffer everything would be lost. */
    method Enque(k: int) returns (isFull: bool)
      requires Valid()
      modifies this`writePointer, keys
      ensures Valid() && isFull == old(IsFull())
      ensures Contents() == if isFull then [] else old(Contents()) + [k]
    {
      CapacityDividesWord(size);
      NextPosition(writePointer, size);
      isFull := IsFull();
      ghost var was := keys[..];
      keys[writePointer] := k;
      LiveSnoc(was, readPointer, writePointer, k);
      writePointer := writePointer + 1;
      writePointer := writePointer % size;
    }

    /** CircularBufferDeque. */
    method Deque() returns (isEmpty: bool, k: int)
      requires Valid()
      modifies this`readPointer
      ensures Valid() && isEmpty == (old(Contents()) == [])
      ensures if isEmpty then Contents() == [] else old(Contents()) == [k] + Contents()
    {
      FullAndEmpty();
      isEmpty, k := IsEmpty(), 0;
      if isEmpty { return; }
      CapacityDividesWord(size);
      NextPosition(readPointer, size);
      k := keys[readPointer];
      LiveHead(keys[..], readPointer, writePointer);
      readPointer := readPointer + 1;
      readPointer := readPointer % size;
    }

    /** growCircularBuffer: a buffer of twice the size with the same entries. */
    method Grow() returns (newBuf: CircularBuffer)
      requires Valid() && size < MAX_SIZE
      ensures newBuf.Valid() && fresh(newBuf) && fresh(newBuf.keys)
      ensures newBuf.size == 2 * size && newBuf.Contents() == Contents() && !newBuf.IsFull()
    {
      hide IsCapacity, Live, WrappedDistance, Pow2, Wrap;
      CapacityDividesWord(size);
      DoubleCapacity(size);
      newBuf := new CircularBuffer(size * 2);
      FullAndEmpty();
      CopyLive(newBuf.keys);
      DistanceOf(readPointer, writePointer, size);
      newBuf.writePointer := WrappedDistance(readPointer, writePointer, size);
      LiveFromStart(newBuf.keys[..], newBuf.writePointer);
      newBuf.FullAndEmpty();
    }

    /** Copies the live entries to the start of a larger array. */
    method CopyLive(to: array<int>)
      requires Valid() && to != keys && size <= to.Length
      modifies to
      ensures |Contents()| <= to.Length && to[..|Contents()|] == Contents()
    {
      CapacityDividesWord(size);
      FullAndEmpty();
      if readPointer < writePointer {
        Copy(to, 0, keys, readPointer, writePointer - readPointer);
        assert to[..writePointer - readPointer] == to[0..0 + (writePointer - readPointer)];
      } else {
        var n := size - readPointer;
        Copy(to, 0, keys, readPointer, n);
        Copy(to, n, keys, 0, writePointer);
        assert to[..n + writePointer] == to[..n] + to[n..n + writePointer];
      }
    }

    /** sizeofSchedulerQueue. */
    method Size() returns (total: int)
      requires Valid()
      ensures total == |Contents()|
    {
      CapacityDividesWord(size);
      FullAndEmpty();
      DistanceOf(readPointer, writePointer, size);
      total := WrappedDistance(readPointer, writePointer, size);
    }

    /** foreachObjptrInSQ for one buffer: f is what becomes of an object pointer.
        Slots that hold no live entry are left alone. */
    method ForeachObjptr(f: int -> int)
      requires Valid()
      modifies keys
      ensures Valid() && Contents() == MapObjptrs(f, old(Contents()))
      ensures forall i {:trigger Position(readPointer, i, size)} :: Distance(readPointer, writePointer, size) <= i < size ==>
        keys[Position(readPointer, i, size)] == old(keys[..])[Position(readPointer, i, size)]
    {
      hide IsCapacity, Live, Visit;
      CapacityDividesWord(size);
      ghost var was, n := keys[..], 0;
      var rp, wp := readPointer, writePointer;
      FullAndEmpty();
      while rp != wp
        invariant 0 <= n <= Distance(readPointer, wp, size) && rp == Position(readPointer, n, size)
        invariant forall i {:trigger Position(readPointer, i, size)} :: 0 <= i < n ==>
          keys[Position(readPointer, i, size)] == Visit(f, was[Position(readPointer, i, size)])
        invariant forall i {:trigger Position(readPointer, i, size)} :: n <= i < size ==>
          keys[Position(readPointer, i, size)] == was[Position(readPointer, i, size)]
        decreases Distance(readPointer, wp, size) - n
      {
        NextPosition(rp, size);
        keys[rp] := Visit(f, keys[rp]);
        rp := rp + 1;
        rp := rp % size;
        n := n + 1;
      }
      LiveAt(was, readPointer, wp);
      LiveAt(keys[..], readPointer, wp);
    }
  }

  datatype Option<T> = None | Some(value: T)

  /** The three queues of one processor: primary, secondary and parasites. */
  class ProcessorQueues {
    var primary: CircularBuffer
    var secondary: CircularBuffer
    var parasites: CircularBuffer

    /** newSchedulerQueue. */
    constructor ()
      ensures Valid() && forall i :: 0 <= i < 3 ==> Queue(i) == []
    {
      assert BUFFER_SIZE == BUFFER_SIZE * Pow2(0);
      primary := new CircularBuffer(BUFFER_SIZE);
      secondary := new CircularBuffer(BUFFER_SIZE);
      parasites := new CircularBuffer(BUFFER_SIZE);
    }

    predicate Separate()
      reads this
    {
      && primary != secondary && primary != parasites && secondary != parasites
      && primary.keys != secondary.keys && primary.keys != parasites.keys && secondary.keys != parasites.keys
    }

    ghost predicate Valid()
      reads this, primary, secondary, parasites
    {
      Separate() && primary.Valid() && secondary.Valid() && parasites.Valid()
    }

    /** getSubQ. */
    function SubQ(i: int): CircularBuffer
      requires 0 <= i < 3
      reads this
    {
      if i == 0 then primary else if i == 1 then secondary else parasites
    }

    ghost function Queue(i: int): seq<int>
      requires 0 <= i < 3 && Valid()
      reads this, primary, secondary, parasites, primary.keys, secondary.keys, parasites.keys
    {
      SubQ(i).Contents()
    }

    /** sqEnque: no entry is ever written over, whatever the queue holds. */
    method SqEnque(k: int, i: int)
      requires Valid() && 0 <= i < 3 && (SubQ(i).IsFull() ==> SubQ(i).size < MAX_SIZE)
      modifies this, SubQ(i), SubQ(i).keys
      ensures Valid() && Queue(i) == old(Queue(i)) + [k]
      ensures forall j :: 0 <= j < 3 && j != i ==> SubQ(j) == old(SubQ(j)) && Queue(j) == old(Queue(j))
    {
      hide IsCapacity, Live;
      var cq := SubQ(i);
      if cq.IsFull() {
        cq := cq.Grow();
        if i == 0 { primary := cq; } else if i == 1 { secondary := cq; } else { parasites := cq; }
      }
      var isFull := cq.Enque(k);
    }

    /** GC_sqDeque: the oldest entry of queue i or, for i = -1, of the first of
        the primary and the secondary queue that has one. */
    method SqDeque(i: int) returns (res: Option<int>)
      requires Valid() && -1 <= i < 3
      modifies primary, secondary, parasites
      ensures Valid() && primary == old(primary) && secondary == old(secondary) && parasites == old(parasites)
      ensures var q := if i >= 0 then i else if old(Queue(0)) != [] then 0 else 1;
        && (res == None <==> old(Queue(q)) == [])
        && (res.Some? ==> old(Queue(q)) == [res.value] + Queue(q))
        && (forall j :: 0 <= j < 3 && (j != q || res == None) ==> Queue(j) == old(Queue(j)))
      decreases if i == -1 then 1 else 0
    {
      hide IsCapacity, Live;
      if i == -1 {
        primary.FullAndEmpty();
        secondary.FullAndEmpty();
        if !primary.IsEmpty() {
          res := SqDeque(0);
        } else if !secondary.IsEmpty() {
          res := SqDeque(1);
        } else {
          res := None;
        }
      } else {
        var isEmpty, k := SubQ(i).Deque();
        res := if isEmpty then None else Some(k);
      }
    }
  }

  /** What callIfIsObjptr leaves in a slot. */
  function Visit(f: int -> int, k: int): int { if IsObjptr(k) then f(k) else k }

  function MapObjptrs(f: int -> int, s: seq<int>): seq<int> { seq(|s|, i requires 0 <= i < |s| => Visit(f, s[i])) }

  /** The entries from rp up to wp, going round. */
  function Live(keys: seq<int>, rp: int, wp: int): seq<int>
    requires 0 <= rp < |keys| && 0 <= wp < |keys|
  {
    if rp <= wp then keys[rp..wp] else keys[rp..] + keys[..wp]
  }

  /** Where the entry i places behind rp is kept. */
  function Position(rp: int, i: int, size: int): int {
    if rp + i < size then rp + i else rp + i - size
  }

  lemma NextPosition(p: int, size: int)
    requires 0 <= p < size
    ensures (p + 1) % size == if p + 1 == size then 0 else p + 1
  {
    if p + 1 == size { DivisionIs(p + 1, size, 1, 0); } else { DivisionIs(p + 1, size, 0, p + 1); }
  }

  lemma DoubleCapacity(size: int)
    requires IsCapacity(size) && size < MAX_SIZE
    ensures IsCapacity(2 * size)
  {
    var k: nat :| k <= 17 && size == BUFFER_SIZE * Pow2(k);
    LargestCapacity();
    assert Pow2(k + 1) == 2 * Pow2(k);
  }

  lemma LargestCapacity()
    ensures BUFFER_SIZE * Pow2(17) == MAX_SIZE
  {
    Pow2Adds(8, 9);
    assert Pow2(8) == 256 && Pow2(9) == 512;
  }

  lemma LiveFromStart(keys: seq<int>, wp: int)
    requires 0 <= wp < |keys|
    ensures Live(keys, 0, wp) == keys[..wp]
  {
  }

  lemma LiveAt(keys: seq<int>, rp: int, wp: int)
    requires 0 <= rp < |keys| && 0 <= wp < |keys|
    ensures |Live(keys, rp, wp)| == Distance(rp, wp, |keys|)
    ensures forall i {:trigger Live(keys, rp, wp)[i]} {:trigger Position(rp, i, |keys|)} ::
      0 <= i < Distance(rp, wp, |keys|) ==> Live(keys, rp, wp)[i] == keys[Position(rp, i, |keys|)]
  {
  }

  lemma LiveSnoc(keys: seq<int>, rp: int, wp: int, k: int)
    requires 0 <= rp < |keys| && 0 <= wp < |keys|
    ensures var wp' := if wp + 1 == |keys| then 0 else wp + 1;
      Live(keys[wp := k], rp, wp') == if wp' == rp then [] else Live(keys, rp, wp) + [k]
  {
  }

  lemma LiveHead(keys: seq<int>, rp: int, wp: int)
    requires 0 <= rp < |keys| && 0 <= wp < |keys| && rp != wp
    ensures Live(keys, rp, wp) == [keys[rp]] + Live(keys, if rp + 1 == |keys| then 0 else rp + 1, wp)
  {
    if rp < wp {
      assert keys[rp..wp] == [keys[rp]] + keys[rp + 1..wp];
    } else {
      assert keys[rp..] == [keys[rp]] + keys[rp + 1..];
      if rp + 1 < |keys| { assert keys[rp..] + keys[..wp] == [keys[rp]] + (keys[rp + 1..] + keys[..wp]); }
    }
  }

  /** memcpy between two buffers. */
  method Copy(dst: array<int>, to: int, src: array<int>, from: int, n: int)
    requires dst != src && 0 <= n && 0 <= to && to + n <= dst.Length && 0 <= from && from + n <= src.Length
    modifies dst
    ensures dst[to..to + n] == src[from..from + n]
    ensures dst[..to] == old(dst[..to])
  {
    var i := 0;
    while i < n
      invariant 0 <= i <= n
      invariant dst[to..to + i] == src[from..from + i]
      invariant dst[..to] == old(dst[..to])
    {
      ghost var before := dst[..];
      dst[to + i] := src[from + i];
      assert dst[..] == before[to + i := src[from + i]];
      assert dst[to..to + i] == before[to..to + i];
      i := i + 1;
    }
  }
}

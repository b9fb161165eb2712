/** The byte ring that buffers audio between the core and the audio stream
    (circularbuffer.cpp). One cell is kept free so that readIndex == writeIndex
    means "empty"; copies that cross the end of the ring are split in two. */
module CircularBuffer {
  import opened Wrappers

  /** The constructor caps the capacity at 44 000 bytes. */
  const MAX_CAPACITY: nat := 44000

  lemma ModOnce(x: int, c: int)
    requires 0 < c && 0 <= x < 2 * c
    ensures x % c == if x < c then x else x - c
  {
  }

  lemma ModNeg(x: int, c: int)
    requires 0 < c && -c <= x < 0
    ensures x % c == x + c
  {
  }

  /** `input` placed cyclically into `cells` from position `at` on: cell j
      receives input[d] where d is the distance from `at` forward to j; cells
      further than |input| from `at` keep their value. */
  function Stored(cells: seq<bv8>, at: nat, input: seq<bv8>): (r: seq<bv8>)
    requires 0 < |cells| && at < |cells| && |input| <= |cells|
    ensures |r| == |cells|
  {
    seq(|cells|, j requires 0 <= j < |cells| =>
      if (j - at) % |cells| < |input| then input[(j - at) % |cells|] else cells[j])
  }

  /** The n cells found walking the ring forward from position `at`. */
  function Fetched(cells: seq<bv8>, at: nat, n: nat): (r: seq<bv8>)
    requires 0 < |cells|
    ensures |r| == n
  {
    seq(n, k requires 0 <= k < n => cells[(at + k) % |cells|])
  }

  /** Walking k < c cells forward from `at` and measuring the distance back
      to `at` gives k again. */
  lemma DistanceBack(at: nat, k: nat, c: nat)
    requires at < c && k < c
    ensures ((at + k) % c - at) % c == k
  {
    var j := (at + k) % c;
    ModOnce(at + k, c);
    if at + k < c {
      ModOnce(j - at, c);
    } else {
      ModNeg(j - at, c);
    }
  }

  /** Round trip of the two copy directions: fetching |input| cells from the
      position where `input` was stored gives back `input`. */
  lemma {:induction false} FetchStored(cells: seq<bv8>, at: nat, input: seq<bv8>)
    requires 0 < |cells| && at < |cells| && |input| <= |cells|
    ensures Fetched(Stored(cells, at, input), at, |input|) == input
  {
    var stored := Stored(cells, at, input);
    forall k | 0 <= k < |input|
      ensures Fetched(stored, at, |input|)[k] == input[k]
    {
      DistanceBack(at, k, |cells|);
    }
  }

  /** availableSize() as written: the free space. It is the unique n below
      the capacity such that n + 1 steps forward from writeIndex reach readIndex,
      so one cell always stays free. */
  function Available(capacity: nat, readIndex: nat, writeIndex: nat): (n: nat)
    requires readIndex < capacity && writeIndex < capacity
    ensures n < capacity
    ensures (writeIndex + n + 1) % capacity == readIndex
  {
    var x := capacity - writeIndex + readIndex - 1;
    ModOnce(x, capacity);
    ModOnce(writeIndex + x % capacity + 1, capacity);
    x % capacity
  }

  /** usedSize() as written: capacity minus the free space. Reading that many
      bytes would move readIndex one cell PAST writeIndex, and on an empty ring
      (readIndex == writeIndex) it is 1, not 0. */
  function Used(capacity: nat, readIndex: nat, writeIndex: nat): (n: nat)
    requires readIndex < capacity && writeIndex < capacity
    ensures 1 <= n <= capacity
    ensures (readIndex + n) % capacity == (writeIndex + 1) % capacity
  {
    var avail := Available(capacity, readIndex, writeIndex);
    ModOnce(readIndex + capacity - avail, capacity);
    ModOnce(writeIndex + 1, capacity);
    ModOnce(writeIndex + avail + 1, capacity);
    capacity - avail
  }

  /** The number of bytes actually held: the distance from readIndex forward
      to writeIndex (the corrected counterpart of Used). */
  function Occupied(capacity: nat, readIndex: nat, writeIndex: nat): (n: nat)
    requires readIndex < capacity && writeIndex < capacity
    ensures n < capacity
    ensures (readIndex + n) % capacity == writeIndex
    ensures readIndex == writeIndex <==> n == 0
  {
    if writeIndex >= readIndex then
      ModOnce(writeIndex - readIndex, capacity);
      writeIndex - readIndex
    else
      ModOnce(readIndex + capacity + writeIndex - readIndex, capacity);
      capacity + writeIndex - readIndex
  }

  /** Free space and held bytes always add up to capacity - 1 (the kept cell). */
  lemma {:induction false} OccupiedPlusAvailable(capacity: nat, readIndex: nat, writeIndex: nat)
    requires readIndex < capacity && writeIndex < capacity
    ensures Occupied(capacity, readIndex, writeIndex) + Available(capacity, readIndex, writeIndex) == capacity - 1
  {
    var avail := Available(capacity, readIndex, writeIndex);
    var occ := Occupied(capacity, readIndex, writeIndex);
    ModOnce(writeIndex + avail + 1, capacity);
    ModOnce(readIndex + occ, capacity);
  }

  /** The as-written Used always counts one byte more than the ring holds. */
  lemma {:induction false} UsedOverCounts(capacity: nat, readIndex: nat, writeIndex: nat)
    requires readIndex < capacity && writeIndex < capacity
    ensures Used(capacity, readIndex, writeIndex) == Occupied(capacity, readIndex, writeIndex) + 1
  {
    OccupiedPlusAvailable(capacity, readIndex, writeIndex);
  }

  /** Counterexample: on an empty ring of capacity > 1 the as-written read hands
      out one stale byte, after which the ring reports no free space at all. */
  lemma {:induction false} EmptyRingReadsStaleByte(capacity: nat, index: nat)
    requires 1 < capacity && index < capacity
    ensures Used(capacity, index, index) == 1
    ensures Occupied(capacity, index, index) == 0
    ensures Available(capacity, (index + 1) % capacity, index) == 0
  {
    UsedOverCounts(capacity, index, index);
    ModOnce(index + 1, capacity);
  }

  /** memcpy(dst + at, src + from, n). */
  method CopyInto(dst: array<bv8>, at: nat, src: seq<bv8>, from: nat, n: nat)
    requires at + n <= dst.Length && from + n <= |src|
    modifies dst
    ensures forall j :: 0 <= j < dst.Length ==>
      dst[j] == if at <= j < at + n then src[from + j - at] else old(dst[j])
  {
    forall j | at <= j < at + n {
      dst[j] := src[from + j - at];
    }
  }

  class Buffer {
    var data: array<bv8>
    var capacity: nat
    var readIndex: nat
    var writeIndex: nat

    ghost predicate Valid()
      reads this
    {
      0 < capacity == data.Length && readIndex < capacity && writeIndex < capacity
    }

    /** A size of 0 would make every later operation divide by zero. */
    constructor (size: nat)
      requires size > 0
      ensures Valid() && fresh(data)
      ensures capacity == Min(size, MAX_CAPACITY)
      ensures readIndex == 0 && writeIndex == 0
    {
      var cap: nat := Min(size, MAX_CAPACITY);
      capacity := cap;
      readIndex, writeIndex := 0, 0;
      data := new bv8[cap];
    }

    function AvailableSize(): nat
      reads this
      requires Valid()
    {
      Available(capacity, readIndex, writeIndex)
    }

    function UsedSize(): nat
      reads this
      requires Valid()
    {
      Used(capacity, readIndex, writeIndex)
    }

    /** Copies min(|input|, free space) bytes in at writeIndex, wrapping at the
        end of the ring, and advances writeIndex past them. */
    method Write(input: seq<bv8>) returns (written: nat)
      requires Valid()
      modifies this`writeIndex, data
      ensures Valid() && readIndex == old(readIndex)
      ensures written == Min(|input|, Available(capacity, readIndex, old(writeIndex)))
      ensures writeIndex == (old(writeIndex) + written) % capacity
      ensures data[..] == Stored(old(data[..]), old(writeIndex), input[..written])
    {
      if |input| == 0 {
        ModOnce(writeIndex, capacity);
        assert input[..0] == [];
        return 0;
      }
      ghost var before := data[..];
      var start := writeIndex;
      var bytesToWrite: nat := Min(|input|, AvailableSize());
      if bytesToWrite <= capacity - writeIndex {
        CopyInto(data, writeIndex, input, 0, bytesToWrite);
      } else {
        var size1 := capacity - writeIndex;
        CopyInto(data, writeIndex, input, 0, size1);
        var size2 := bytesToWrite - size1;
        CopyInto(data, 0, input, size1, size2);
      }
      writeIndex := (writeIndex + bytesToWrite) % capacity;
      written := bytesToWrite;
      forall j | 0 <= j < capacity
        ensures data[j] == Stored(before, start, input[..written])[j]
      {
        if j >= start {
          ModOnce(j - start, capacity);
        } else {
          ModNeg(j - start, capacity);
        }
      }
    }

    /** Copies min(bytes, UsedSize()) bytes out from readIndex, wrapping at
        the end of the ring, and advances readIndex past them. */
    method Read(bytes: nat) returns (output: seq<bv8>, read: nat)
      requires Valid()
      modifies this`readIndex
      ensures Valid() && writeIndex == old(writeIndex)
      ensures read == Min(bytes, Used(capacity, old(readIndex), writeIndex))
      ensures output == Fetched(data[..], old(readIndex), read)
      ensures readIndex == (old(readIndex) + read) % capacity
    {
      if bytes == 0 {
        ModOnce(readIndex, capacity);
        return [], 0;
      }
      var start := readIndex;
      var bytesToRead: nat := Min(bytes, UsedSize());
      if bytesToRead <= capacity - readIndex {
        output := data[readIndex..readIndex + bytesToRead];
      } else {
        var size1 := capacity - readIndex;
        var size2 := bytesToRead - size1;
        output := data[readIndex..] + data[..size2];
      }
      readIndex := (readIndex + bytesToRead) % capacity;
      read := bytesToRead;
      forall k | 0 <= k < read
        ensures output[k] == Fetched(data[..], start, read)[k]
      {
        ModOnce(start + k, capacity);
      }
    }

    /** Skips min(bytes, UsedSize()) bytes but returns `bytes` itself. */
    method Drop(bytes: nat) returns (dropped: nat)
      requires Valid()
      modifies this`readIndex
      ensures Valid() && writeIndex == old(writeIndex)
      ensures dropped == bytes
      ensures readIndex == (old(readIndex) + Min(bytes, Used(capacity, old(readIndex), writeIndex))) % capacity
    {
      if bytes == 0 {
        ModOnce(readIndex, capacity);
        return 0;
      }
      var bytesToRead := Min(bytes, UsedSize());
      readIndex := (readIndex + bytesToRead) % capacity;
      return bytes;
    }
  }
}

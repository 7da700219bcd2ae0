/** The growable byte buffer of buffer.h (BufferT<uint8_t>), with the reference count
    that RefCountedObject<Buffer> adds to it. */
module Buffers {
  import opened Bytes

  function Max(a: nat, b: nat): nat {
    if a < b then b else a
  }

  /** Capacity after a request for `wanted` elements. With headroom the buffer grows by
      at least half of what it had, rounded down. */
  function GrownCapacity(capacity: nat, wanted: nat, headroom: bool): (c: nat)
    ensures wanted <= c && capacity <= c
  {
    if wanted <= capacity then capacity
    else if headroom then Max(wanted, capacity + capacity / 2)
    else wanted
  }

  /** memcpy into a block. */
  function Overwritten(block: seq<Byte>, at: nat, bytes: seq<Byte>): (r: seq<Byte>)
    requires at + |bytes| <= |block|
    ensures |r| == |block| && r[..at] == block[..at] && r[at..at + |bytes|] == bytes
    ensures r[..at + |bytes|] == block[..at] + bytes
  {
    block[..at] + bytes + block[at + |bytes|..]
  }

  /** new T[n]: a block whose elements are not initialized. */
  method NewBlock(n: nat) returns (block: seq<Byte>)
    ensures |block| == n
  {
    assert |seq(n, _ => 0)| == n;
    block :| |block| == n;
  }

  /** The block is owned by its buffer alone, so it is kept by value; its length is the
      capacity. */
  class Buffer {
    var data: seq<Byte>
    var size: nat
    var refCount: nat
    ghost var moved: nat  // elements copied by reallocations since construction
    ghost var freed: bool // the last reference is gone and the object deleted

    ghost predicate Valid()
      reads this
    {
      size <= |data|
    }

    ghost function Contents(): seq<Byte>
      requires Valid()
      reads this
    {
      data[..size]
    }

    /** `size` uninitialized elements. */
    constructor Sized(size: nat, capacity: nat)
      ensures Valid()
      ensures this.size == size && |data| == Max(size, capacity)
      ensures refCount == 0 && moved == 0 && !freed
    {
      var block := NewBlock(Max(size, capacity));
      this.data, this.size, refCount, moved, freed := block, size, 0, 0, false;
    }

    constructor FromBytes(bytes: seq<Byte>, capacity: nat)
      ensures Valid()
      ensures Contents() == bytes && |data| == Max(|bytes|, capacity)
      ensures refCount == 0 && moved == 0 && !freed
    {
      var block := NewBlock(Max(|bytes|, capacity));
      data, size, refCount, moved, freed := Overwritten(block, 0, bytes), |bytes|, 0, 0, false;
    }

    method EnsureCapacityWithHeadroom(capacity: nat, headroom: bool)
      requires Valid()
      modifies this`data, this`moved
      ensures Valid() && Contents() == old(Contents())
      ensures |data| == GrownCapacity(old(|data|), capacity, headroom)
      ensures moved == old(moved) + if capacity <= old(|data|) then 0 else size
    {
      if capacity <= |data| {
        return;
      }
      var block := NewBlock(GrownCapacity(|data|, capacity, headroom));
      data := Overwritten(block, 0, data[..size]);
      moved := moved + size;
    }

    method EnsureCapacity(capacity: nat)
      requires Valid()
      modifies this`data, this`moved
      ensures Valid() && Contents() == old(Contents())
      ensures |data| == Max(old(|data|), capacity)
    {
      EnsureCapacityWithHeadroom(capacity, false);
    }

    method AppendData(bytes: seq<Byte>)
      requires Valid()
      modifies this`data, this`size, this`moved
      ensures Valid() && Contents() == old(Contents()) + bytes
      ensures |data| == GrownCapacity(old(|data|), old(size) + |bytes|, true)
      ensures moved == old(moved) + if old(size) + |bytes| <= old(|data|) then 0 else old(size)
    {
      EnsureCapacityWithHeadroom(size + |bytes|, true);
      data := Overwritten(data, size, bytes);
      size := size + |bytes|;
    }

    method SetData(bytes: seq<Byte>)
      requires Valid()
      modifies this`data, this`size, this`moved
      ensures Valid() && Contents() == bytes
      ensures |data| == GrownCapacity(old(|data|), |bytes|, true)
    {
      size := 0;
      AppendData(bytes);
    }

    /** Keeps the contents up to the new size; elements beyond the old size are
        whatever the block holds. */
    method SetSize(newSize: nat)
      requires Valid()
      modifies this`data, this`size, this`moved
      ensures Valid() && size == newSize
      ensures newSize <= old(size) ==> Contents() == old(Contents())[..newSize]
      ensures old(size) <= newSize ==> Contents()[..old(size)] == old(Contents())
      ensures |data| == GrownCapacity(old(|data|), newSize, true)
    {
      EnsureCapacityWithHeadroom(newSize, true);
      assert data[..size] == old(data[..size]);
      size := newSize;
    }

    method Clear()
      modifies this`size
      ensures size == 0
    {
      size := 0;
    }
  }

  // ----- Amortized cost of growing -----

  function Total(sizes: seq<nat>): nat {
    if sizes == [] then 0 else sizes[0] + Total(sizes[1..])
  }

  function Flatten(chunks: seq<seq<Byte>>): seq<Byte> {
    if chunks == [] then [] else chunks[0] + Flatten(chunks[1..])
  }

  function Sizes(chunks: seq<seq<Byte>>): seq<nat> {
    seq(|chunks|, i requires 0 <= i < |chunks| => |chunks[i]|)
  }

  /** Elements copied by reallocations while appending chunks of the given sizes. */
  function MovedBy(sizes: seq<nat>, size: nat, capacity: nat): nat
    decreases sizes
  {
    if sizes == [] then 0
    else
      var wanted := size + sizes[0];
      (if wanted <= capacity then 0 else size) +
      MovedBy(sizes[1..], wanted, GrownCapacity(capacity, wanted, true))
  }

  /** Reachable situations: either nothing was moved yet, or the elements moved are paid
      for by the capacity `full` that the last growth found exhausted. */
  ghost predicate PaidFor(moved: nat, size: nat, capacity: nat) {
    moved == 0 || exists full: nat :: PaidBy(full, moved, size, capacity)
  }

  ghost predicate PaidBy(full: nat, moved: nat, size: nat, capacity: nat) {
    full < size && moved <= 4 * full && full + full / 2 <= capacity && full < capacity
  }

  lemma GrowthIsPaidFor(moved: nat, size: nat, capacity: nat, wanted: nat)
    requires PaidFor(moved, size, capacity) && size <= capacity && size <= wanted
    ensures PaidFor(moved + (if wanted <= capacity then 0 else size), wanted, GrownCapacity(capacity, wanted, true))
  {
    if wanted > capacity {
      assert PaidBy(capacity, moved + size, wanted, GrownCapacity(capacity, wanted, true));
    } else if moved != 0 {
      var full: nat :| PaidBy(full, moved, size, capacity);
      assert PaidBy(full, moved, wanted, capacity);
    }
  }

  lemma {:induction false} MovedBound(sizes: seq<nat>, moved: nat, size: nat, capacity: nat)
    requires PaidFor(moved, size, capacity) && size <= capacity
    ensures moved + MovedBy(sizes, size, capacity) <= 4 * (size + Total(sizes))
    decreases sizes
  {
    if sizes != [] {
      var wanted := size + sizes[0];
      GrowthIsPaidFor(moved, size, capacity, wanted);
      MovedBound(sizes[1..], moved + (if wanted <= capacity then 0 else size), wanted,
                 GrownCapacity(capacity, wanted, true));
    }
  }

  /** Over any run of appends to an empty buffer, of whatever initial capacity,
      reallocations copy at most four elements per element appended. */
  lemma AppendsAreAmortized(sizes: seq<nat>, capacity: nat)
    ensures MovedBy(sizes, 0, capacity) <= 4 * Total(sizes)
  {
    MovedBound(sizes, 0, 0, capacity);
  }

  method AppendAll(b: Buffer, chunks: seq<seq<Byte>>)
    requires b.Valid() && b.size == 0
    modifies b
    ensures b.Valid() && b.Contents() == Flatten(chunks)
    ensures b.moved - old(b.moved) <= 4 * |Flatten(chunks)|
  {
    ghost var sizes, capacity := Sizes(chunks), |b.data|;
    var i := 0;
    assert chunks[..0] == [];
    while i < |chunks|
      invariant 0 <= i <= |chunks|
      invariant b.Valid() && b.Contents() == Flatten(chunks[..i])
      invariant b.moved - old(b.moved) + MovedBy(sizes[i..], b.size, |b.data|) == MovedBy(sizes, 0, capacity)
    {
      assert sizes[i..][1..] == sizes[i + 1..];
      FlattenNext(chunks, i);
      b.AppendData(chunks[i]);
      i := i + 1;
    }
    assert chunks[..i] == chunks;
    AppendsAreAmortized(sizes, capacity);
    TotalIsLength(chunks);
  }

  lemma {:induction false} FlattenNext(chunks: seq<seq<Byte>>, i: nat)
    requires i < |chunks|
    ensures Flatten(chunks[..i + 1]) == Flatten(chunks[..i]) + chunks[i]
  {
    if i == 0 {
      assert chunks[..1] == [chunks[0]] && chunks[..1][1..] == [];
    } else {
      FlattenNext(chunks[1..], i - 1);
      assert chunks[..i + 1][1..] == chunks[1..][..i];
      assert chunks[..i][1..] == chunks[1..][..i - 1];
    }
  }

  lemma {:induction false} TotalIsLength(chunks: seq<seq<Byte>>)
    ensures Total(Sizes(chunks)) == |Flatten(chunks)|
  {
    if chunks != [] {
      assert Sizes(chunks)[1..] == Sizes(chunks[1..]);
      TotalIsLength(chunks[1..]);
    }
  }
}

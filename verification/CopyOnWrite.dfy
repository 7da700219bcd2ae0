/** The copy-on-write buffer of copy_on_write_buffer.h/.cc: handles (CopyOnWriteBuffer)
    that share reference-counted storage cells through scoped_refptr. */
module CopyOnWrite {
  import opened Bytes
  import opened Buffers

  /** What a handle reads as: nothing was ever stored, or a byte string and the room it
      has. The two are told apart by operator==. */
  datatype Value = Null | Stored(bytes: seq<Byte>, capacity: nat) {

    /** The class invariant: storage that is present has room for something. */
    predicate IsConsistent() {
      Null? || capacity > 0
    }

    function Bytes(): seq<Byte> {
      if Null? then [] else bytes
    }
  }

  // ----- Counting the handles on a cell -----

  /** How many handles point at a cell. */
  ghost function Count(ptrs: seq<Buffer?>, c: Buffer): nat {
    multiset(ptrs)[c]
  }

  /** The cells that some handle points at. */
  ghost function Cells(ptrs: seq<Buffer?>): set<Buffer> {
    set c: Buffer | c in ptrs
  }

  lemma CellsRepointed(ptrs: seq<Buffer?>, k: nat, p: Buffer?)
    requires k < |ptrs|
    ensures forall c :: c in Cells(ptrs[k := p]) ==> c in Cells(ptrs) || c == p
  {
  }

  /** Every pointed-at cell's count is exactly the number of handles that point at it, and
      none of them has been deleted. */
  ghost predicate CountsExact(ptrs: seq<Buffer?>)
    reads Cells(ptrs)
  {
    forall c :: c in Cells(ptrs) ==> c.Valid() && !c.freed && c.refCount == Count(ptrs, c)
  }

  ghost predicate Freed(cells: set<Buffer>)
    reads cells
  {
    forall c :: c in cells ==> c.freed
  }

  lemma CountUpdate(ptrs: seq<Buffer?>, k: nat, p: Buffer?, c: Buffer)
    requires k < |ptrs|
    ensures Count(ptrs[k := p], c) == Count(ptrs, c) - (if ptrs[k] == c then 1 else 0) + (if p == c then 1 else 0)
    ensures c in ptrs[k := p] <==> Count(ptrs[k := p], c) > 0
  {
  }

  /** Repointing slot k gives one reference to the new cell and takes one from the old. */
  lemma CountsRepointed(was: seq<Buffer?>, k: nat, p: Buffer?)
    requires k < |was|
    requires forall c: Buffer :: c in was || c == p ==> c.Valid() && (c in was[k := p] ==> !c.freed)
    requires forall c: Buffer :: c in was || c == p ==>
                c.refCount == Count(was, c) + (if c == p then 1 else 0) - (if c == was[k] then 1 else 0)
    ensures CountsExact(was[k := p])
  {
    forall c | c in Cells(was[k := p])
      ensures c.Valid() && !c.freed && c.refCount == Count(was[k := p], c)
    {
      CountUpdate(was, k, p, c);
    }
  }

  /** Repointing a handle strands its old cell exactly when the handle was the last. */
  lemma StrandedCells(was: seq<Buffer?>, k: nat, p: Buffer?)
    requires k < |was|
    ensures Cells(was) - Cells(was[k := p]) ==
            if was[k] != null && was[k] != p && Count(was, was[k]) == 1 then {was[k]} else {}
  {
    forall c | c in Cells(was)
      ensures c in was[k := p] <==> !(c == was[k] && c != p && Count(was, c) == 1)
    {
      CountUpdate(was, k, p, c);
    }
  }

  /** The pointers after slot j's pointer moves into slot k. */
  ghost function MovedPointer(was: seq<Buffer?>, k: nat, j: nat): seq<Buffer?>
    requires k < |was| && j < |was|
  {
    if k == j then was else was[j := null][k := was[j]]
  }

  /** Moving a pointer costs the overwritten pointer's cell one reference. */
  lemma MoveCounts(was: seq<Buffer?>, k: nat, j: nat)
    requires k < |was| && j < |was| && k != j
    ensures forall c: Buffer :: Count(MovedPointer(was, k, j), c) == Count(was, c) - if was[k] == c then 1 else 0
    ensures Cells(MovedPointer(was, k, j)) ==
            Cells(was) - if was[k] != null && Count(was, was[k]) == 1 then {was[k]} else {}
  {
    var after := MovedPointer(was, k, j);
    forall c: Buffer
      ensures Count(after, c) == Count(was, c) - if was[k] == c then 1 else 0
      ensures c in after <==> c in was && !(c == was[k] && Count(was, c) == 1)
    {
      CountUpdate(was, j, null, c);
      CountUpdate(was[j := null], k, was[j], c);
      assert c in was <==> Count(was, c) > 0;
    }
  }

  lemma SwapCounts(was: seq<Buffer?>, k: nat, j: nat)
    requires k < |was| && j < |was|
    ensures Cells(was[k := was[j]][j := was[k]]) == Cells(was)
    ensures forall c: Buffer :: Count(was[k := was[j]][j := was[k]], c) == Count(was, c)
  {
    var after := was[k := was[j]][j := was[k]];
    forall c: Buffer
      ensures Count(after, c) == Count(was, c) && (c in after <==> c in was)
    {
      CountUpdate(was, k, was[j], c);
      CountUpdate(was[k := was[j]], j, was[k], c);
    }
  }

  /** A count of one means that no other slot points at the cell. */
  lemma SoleOwner(ptrs: seq<Buffer?>, k: nat, i: nat)
    requires k < |ptrs| && i < |ptrs| && i != k
    requires ptrs[k] != null && Count(ptrs, ptrs[k]) == 1
    ensures ptrs[i] != ptrs[k]
  {
    CountUpdate(ptrs, k, null, ptrs[k]);
    assert ptrs[k := null][i] == ptrs[i];
  }

  // ----- A family of handles -----

  ghost function Pointers(hs: seq<CopyOnWriteBuffer>): (ptrs: seq<Buffer?>)
    reads hs
    ensures |ptrs| == |hs|
  {
    seq(|hs|, i requires 0 <= i < |hs| reads hs => hs[i].buffer)
  }

  ghost predicate Distinct(hs: seq<CopyOnWriteBuffer>) {
    forall i, j :: 0 <= i < j < |hs| ==> hs[i] != hs[j]
  }

  ghost predicate Valid(hs: seq<CopyOnWriteBuffer>)
    reads hs, Cells(Pointers(hs))
  {
    Distinct(hs) && CountsExact(Pointers(hs))
  }

  /** What the handle in slot i reads as. */
  ghost function ViewAt(hs: seq<CopyOnWriteBuffer>, i: nat): Value
    requires i < |hs| && Valid(hs)
    reads hs, Cells(Pointers(hs))
  {
    var p := hs[i].buffer;
    assert p == Pointers(hs)[i];
    assert p != null ==> p in Cells(Pointers(hs));
    if p == null then Null else Stored(p.Contents(), |p.data|)
  }

  /** Writing to the cell of a sole owner disturbs no other handle. */
  lemma Alone(hs: seq<CopyOnWriteBuffer>, k: nat)
    requires Valid(hs) && k < |hs| && hs[k].buffer != null && hs[k].buffer.refCount == 1
    ensures hs[k].buffer.Valid() && Pointers(hs)[k] == hs[k].buffer
    ensures forall i :: 0 <= i < |hs| && i != k ==> hs[i].buffer != hs[k].buffer
  {
    var ptrs := Pointers(hs);
    assert ptrs[k] == hs[k].buffer && ptrs[k] in Cells(ptrs);
    forall i | 0 <= i < |hs| && i != k
      ensures hs[i].buffer != hs[k].buffer
    {
      SoleOwner(ptrs, k, i);
      assert ptrs[i] == hs[i].buffer;
    }
  }

  /** A resize keeps what fits; bytes beyond the old size may be anything. */
  ghost predicate Resized(before: seq<Byte>, after: seq<Byte>, size: nat) {
    && |after| == size
    && (size <= |before| ==> after == before[..size])
    && (|before| <= size ==> after[..|before|] == before)
  }

  class CopyOnWriteBuffer {
    var buffer: Buffer?

    constructor ()
      ensures buffer == null
    {
      buffer := null;
    }

    /** scoped_refptr::operator=(T*): takes a reference on the new cell first, so that
        assigning a handle to itself is harmless. */
    method Reset(p: Buffer?, ghost ptrs: seq<Buffer?>, ghost k: nat) returns (ghost deleted: set<Buffer>)
      requires k < |ptrs| && ptrs[k] == buffer && CountsExact(ptrs)
      requires p != null && p !in ptrs ==> p.Valid() && p.refCount == 0 && !p.freed
      modifies this
      modifies (if buffer == null then {} else {buffer})`refCount, (if buffer == null then {} else {buffer})`freed
      modifies (if p == null then {} else {p})`refCount
      ensures buffer == p && CountsExact(ptrs[k := p])
      ensures deleted == Cells(ptrs) - Cells(ptrs[k := p]) && Freed(deleted)
    {
      deleted := {};
      if p != null {
        p.refCount := p.refCount + 1;
      }
      if buffer != null {
        buffer.refCount := buffer.refCount - 1;
        if buffer.refCount == 0 {
          buffer.freed := true;
          deleted := {buffer};
        }
      }
      buffer := p;
      StrandedCells(ptrs, k, p);
      CountsRepointed(ptrs, k, p);
    }

    /** Points this handle elsewhere; every other handle reads as before. */
    method Point(p: Buffer?, ghost hs: seq<CopyOnWriteBuffer>, ghost k: nat) returns (ghost deleted: set<Buffer>)
      requires Valid(hs) && k < |hs| && hs[k] == this
      requires p != null && p !in Pointers(hs) ==> p.Valid() && p.refCount == 0 && !p.freed
      modifies this
      modifies (if buffer == null then {} else {buffer})`refCount, (if buffer == null then {} else {buffer})`freed
      modifies (if p == null then {} else {p})`refCount
      ensures Valid(hs) && buffer == p && Pointers(hs) == old(Pointers(hs))[k := p]
      ensures forall i :: 0 <= i < |hs| && i != k ==> ViewAt(hs, i) == old(ViewAt(hs, i))
      ensures deleted == Cells(old(Pointers(hs))) - Cells(Pointers(hs)) && Freed(deleted)
    {
      ghost var ptrs := Pointers(hs);
      deleted := Reset(p, ptrs, k);
      assert Pointers(hs) == ptrs[k := p];
    }

    /** buffer_ = new RefCountedObject<Buffer>(data, size, capacity). */
    method Replace(bytes: seq<Byte>, capacity: nat, ghost hs: seq<CopyOnWriteBuffer>, ghost k: nat)
      returns (ghost deleted: set<Buffer>)
      requires Valid(hs) && k < |hs| && hs[k] == this
      modifies this
      modifies (if buffer == null then {} else {buffer})`refCount, (if buffer == null then {} else {buffer})`freed
      ensures Valid(hs) && buffer != null && fresh(buffer) && buffer.refCount == 1
      ensures Pointers(hs) == old(Pointers(hs))[k := buffer]
      ensures forall i :: 0 <= i < |hs| && i != k ==> ViewAt(hs, i) == old(ViewAt(hs, i))
      ensures ViewAt(hs, k) == Stored(bytes, Max(|bytes|, capacity))
      ensures deleted == Cells(old(Pointers(hs))) - Cells(Pointers(hs)) && Freed(deleted)
    {
      var p := new Buffer.FromBytes(bytes, capacity);
      CountUpdate(Pointers(hs), k, p, p);
      deleted := Point(p, hs, k);
    }

    /** Replaces a shared cell by a private copy. */
    method CloneDataIfReferenced(capacity: nat, ghost hs: seq<CopyOnWriteBuffer>, ghost k: nat)
      returns (ghost deleted: set<Buffer>)
      requires Valid(hs) && k < |hs| && hs[k] == this && buffer != null
      modifies this
      modifies (if buffer == null then {} else {buffer})`refCount, (if buffer == null then {} else {buffer})`freed
      ensures Valid(hs) && buffer != null && buffer.refCount == 1
      ensures Pointers(hs) == old(Pointers(hs))[k := buffer]
      ensures forall i :: 0 <= i < |hs| && i != k ==> ViewAt(hs, i) == old(ViewAt(hs, i))
      ensures ViewAt(hs, k).Stored? && ViewAt(hs, k).bytes == old(ViewAt(hs, k)).Bytes()
      ensures if old(buffer.refCount) == 1 then buffer == old(buffer)
              else fresh(buffer) && |buffer.data| == Max(old(buffer.size), capacity)
      ensures deleted == Cells(old(Pointers(hs))) - Cells(Pointers(hs)) && deleted == {}
    {
      assert Pointers(hs)[k] == buffer && buffer in Cells(Pointers(hs));
      if buffer.refCount == 1 {
        return {};
      }
      ghost var ptrs := Pointers(hs);
      deleted := Replace(buffer.data[..buffer.size], capacity, hs, k);
      StrandedCells(ptrs, k, buffer);
    }

    // ----- Changes in place, to a cell that only this handle points at -----

    method SetPrivate(bytes: seq<Byte>, ghost hs: seq<CopyOnWriteBuffer>, ghost k: nat)
      requires Valid(hs) && k < |hs| && hs[k] == this && buffer != null && buffer.refCount == 1
      modifies buffer
      ensures Valid(hs) && Pointers(hs) == old(Pointers(hs))
      ensures forall i :: 0 <= i < |hs| && i != k ==> ViewAt(hs, i) == old(ViewAt(hs, i))
      ensures ViewAt(hs, k) == Stored(bytes, GrownCapacity(old(|buffer.data|), |bytes|, true))
    {
      Alone(hs, k);
      buffer.SetData(bytes);
      assert Pointers(hs) == old(Pointers(hs));
    }

    method AppendPrivate(bytes: seq<Byte>, ghost hs: seq<CopyOnWriteBuffer>, ghost k: nat)
      requires Valid(hs) && k < |hs| && hs[k] == this && buffer != null && buffer.refCount == 1
      modifies buffer
      ensures Valid(hs) && Pointers(hs) == old(Pointers(hs))
      ensures forall i :: 0 <= i < |hs| && i != k ==> ViewAt(hs, i) == old(ViewAt(hs, i))
      ensures ViewAt(hs, k) == Stored(old(ViewAt(hs, k)).Bytes() + bytes,
                                      GrownCapacity(old(|buffer.data|), old(buffer.size) + |bytes|, true))
    {
      Alone(hs, k);
      buffer.AppendData(bytes);
      assert Pointers(hs) == old(Pointers(hs));
    }

    method ResizePrivate(size: nat, ghost hs: seq<CopyOnWriteBuffer>, ghost k: nat)
      requires Valid(hs) && k < |hs| && hs[k] == this && buffer != null && buffer.refCount == 1
      modifies buffer
      ensures Valid(hs) && Pointers(hs) == old(Pointers(hs))
      ensures forall i :: 0 <= i < |hs| && i != k ==> ViewAt(hs, i) == old(ViewAt(hs, i))
      ensures ViewAt(hs, k).Stored? && Resized(old(ViewAt(hs, k)).Bytes(), ViewAt(hs, k).bytes, size)
      ensures ViewAt(hs, k).capacity == GrownCapacity(old(|buffer.data|), size, true)
    {
      Alone(hs, k);
      buffer.SetSize(size);
      assert Pointers(hs) == old(Pointers(hs));
    }

    method ReservePrivate(capacity: nat, ghost hs: seq<CopyOnWriteBuffer>, ghost k: nat)
      requires Valid(hs) && k < |hs| && hs[k] == this && buffer != null && buffer.refCount == 1
      modifies buffer
      ensures Valid(hs) && Pointers(hs) == old(Pointers(hs))
      ensures forall i :: 0 <= i < |hs| && i != k ==> ViewAt(hs, i) == old(ViewAt(hs, i))
      ensures ViewAt(hs, k) == Stored(old(ViewAt(hs, k)).Bytes(), Max(old(|buffer.data|), capacity))
    {
      Alone(hs, k);
      buffer.EnsureCapacity(capacity);
      assert Pointers(hs) == old(Pointers(hs));
    }

    method ClearPrivate(ghost hs: seq<CopyOnWriteBuffer>, ghost k: nat)
      requires Valid(hs) && k < |hs| && hs[k] == this && buffer != null && buffer.refCount == 1
      modifies buffer
      ensures Valid(hs) && Pointers(hs) == old(Pointers(hs))
      ensures forall i :: 0 <= i < |hs| && i != k ==> ViewAt(hs, i) == old(ViewAt(hs, i))
      ensures ViewAt(hs, k) == Stored([], old(|buffer.data|))
    {
      Alone(hs, k);
      buffer.Clear();
      assert Pointers(hs) == old(Pointers(hs));
    }

    method PutPrivate(index: nat, byte: Byte, ghost hs: seq<CopyOnWriteBuffer>, ghost k: nat)
      requires Valid(hs) && k < |hs| && hs[k] == this && buffer != null && buffer.refCount == 1
      requires index < |ViewAt(hs, k).Bytes()|
      modifies buffer
      ensures Valid(hs) && Pointers(hs) == old(Pointers(hs))
      ensures forall i :: 0 <= i < |hs| && i != k ==> ViewAt(hs, i) == old(ViewAt(hs, i))
      ensures ViewAt(hs, k) == Stored(old(ViewAt(hs, k)).Bytes()[index := byte], old(|buffer.data|))
    {
      Alone(hs, k);
      buffer.data := buffer.data[index := byte];
      assert Pointers(hs) == old(Pointers(hs));
    }

    // ----- The operations on one handle -----

    method SetData(bytes: seq<Byte>, ghost hs: seq<CopyOnWriteBuffer>, ghost k: nat)
      returns (ghost deleted: set<Buffer>)
      requires Valid(hs) && k < |hs| && hs[k] == this
      modifies this, buffer
      ensures Valid(hs) && Pointers(hs) == old(Pointers(hs))[k := buffer]
      ensures buffer == null || buffer == old(buffer) || fresh(buffer)
      ensures forall i :: 0 <= i < |hs| && i != k ==> ViewAt(hs, i) == old(ViewAt(hs, i))
      ensures ViewAt(hs, k).Bytes() == bytes
      ensures ViewAt(hs, k).Null? <==> old(ViewAt(hs, k)).Null? && bytes == []
      ensures old(ViewAt(hs, k)).IsConsistent() ==> ViewAt(hs, k).IsConsistent()
      ensures deleted == Cells(old(Pointers(hs))) - Cells(Pointers(hs)) && Freed(deleted)
    {
      assert Pointers(hs)[k] == buffer;
      assert buffer != null ==> buffer in Cells(Pointers(hs));
      deleted := {};
      if buffer == null {
        if |bytes| > 0 {
          deleted := Replace(bytes, |bytes|, hs, k);
        }
      } else if buffer.refCount != 1 {
        deleted := Replace(bytes, |buffer.data|, hs, k);
      } else {
        SetPrivate(bytes, hs, k);
      }
    }

    /** Appending nothing to a null handle is the one call that breaks the class
        invariant: it leaves storage of capacity zero. */
    method AppendData(bytes: seq<Byte>, ghost hs: seq<CopyOnWriteBuffer>, ghost k: nat)
      returns (ghost deleted: set<Buffer>)
      requires Valid(hs) && k < |hs| && hs[k] == this
      modifies this, buffer
      ensures Valid(hs) && Pointers(hs) == old(Pointers(hs))[k := buffer]
      ensures buffer == null || buffer == old(buffer) || fresh(buffer)
      ensures forall i :: 0 <= i < |hs| && i != k ==> ViewAt(hs, i) == old(ViewAt(hs, i))
      ensures ViewAt(hs, k).Stored? && ViewAt(hs, k).bytes == old(ViewAt(hs, k)).Bytes() + bytes
      ensures old(ViewAt(hs, k)).IsConsistent() ==>
                (ViewAt(hs, k).IsConsistent() <==> !(old(ViewAt(hs, k)).Null? && bytes == []))
      ensures deleted == Cells(old(Pointers(hs))) - Cells(Pointers(hs)) && Freed(deleted)
    {
      assert Pointers(hs)[k] == buffer;
      assert buffer != null ==> buffer in Cells(Pointers(hs));
      if buffer == null {
        deleted := Replace(bytes, |bytes|, hs, k);
        return;
      }
      deleted := CloneDataIfReferenced(Max(|buffer.data|, buffer.size + |bytes|), hs, k);
      AppendPrivate(bytes, hs, k);
    }

    method SetSize(size: nat, ghost hs: seq<CopyOnWriteBuffer>, ghost k: nat)
      returns (ghost deleted: set<Buffer>)
      requires Valid(hs) && k < |hs| && hs[k] == this
      modifies this, buffer
      ensures Valid(hs) && Pointers(hs) == old(Pointers(hs))[k := buffer]
      ensures buffer == null || buffer == old(buffer) || fresh(buffer)
      ensures forall i :: 0 <= i < |hs| && i != k ==> ViewAt(hs, i) == old(ViewAt(hs, i))
      ensures Resized(old(ViewAt(hs, k)).Bytes(), ViewAt(hs, k).Bytes(), size)
      ensures ViewAt(hs, k).Null? <==> old(ViewAt(hs, k)).Null? && size == 0
      ensures old(ViewAt(hs, k)).IsConsistent() ==> ViewAt(hs, k).IsConsistent()
      ensures deleted == Cells(old(Pointers(hs))) - Cells(Pointers(hs)) && Freed(deleted)
    {
      assert Pointers(hs)[k] == buffer;
      assert buffer != null ==> buffer in Cells(Pointers(hs));
      deleted := {};
      if buffer == null {
        if size > 0 {
          var p := new Buffer.Sized(size, size);
          deleted := Point(p, hs, k);
        }
        return;
      }
      deleted := CloneToResize(size, hs, k);
      ResizePrivate(size, hs, k);
    }

    /** A shared cell is replaced by a private one with as much of its bytes as will be kept. */
    method CloneToResize(size: nat, ghost hs: seq<CopyOnWriteBuffer>, ghost k: nat)
      returns (ghost deleted: set<Buffer>)
      requires Valid(hs) && k < |hs| && hs[k] == this && buffer != null
      modifies this
      modifies (if buffer == null then {} else {buffer})`refCount, (if buffer == null then {} else {buffer})`freed
      ensures Valid(hs) && buffer != null && buffer.refCount == 1 && (buffer == old(buffer) || fresh(buffer))
      ensures Pointers(hs) == old(Pointers(hs))[k := buffer]
      ensures forall i :: 0 <= i < |hs| && i != k ==> ViewAt(hs, i) == old(ViewAt(hs, i))
      ensures ViewAt(hs, k).Stored? && ViewAt(hs, k).capacity >= old(|buffer.data|)
      ensures var bytes := old(ViewAt(hs, k)).Bytes();
              ViewAt(hs, k).bytes == bytes || (size <= |bytes| && ViewAt(hs, k).bytes == bytes[..size])
      ensures deleted == Cells(old(Pointers(hs))) - Cells(Pointers(hs)) && deleted == {}
    {
      assert Pointers(hs)[k] == buffer && buffer in Cells(Pointers(hs));
      deleted := {};
      if buffer.refCount != 1 {
        ghost var ptrs := Pointers(hs);
        var kept := if buffer.size < size then buffer.size else size;
        deleted := Replace(buffer.data[..kept], Max(|buffer.data|, size), hs, k);
        StrandedCells(ptrs, k, buffer);
      }
    }

    method EnsureCapacity(capacity: nat, ghost hs: seq<CopyOnWriteBuffer>, ghost k: nat)
      returns (ghost deleted: set<Buffer>)
      requires Valid(hs) && k < |hs| && hs[k] == this
      modifies this, buffer
      ensures Valid(hs) && Pointers(hs) == old(Pointers(hs))[k := buffer]
      ensures buffer == null || buffer == old(buffer) || fresh(buffer)
      ensures forall i :: 0 <= i < |hs| && i != k ==> ViewAt(hs, i) == old(ViewAt(hs, i))
      ensures ViewAt(hs, k).Bytes() == old(ViewAt(hs, k)).Bytes()
      ensures capacity > 0 ==> ViewAt(hs, k).Stored? && ViewAt(hs, k).capacity >= capacity
      ensures ViewAt(hs, k).Null? <==> old(ViewAt(hs, k)).Null? && capacity == 0
      ensures old(ViewAt(hs, k)).IsConsistent() ==> ViewAt(hs, k).IsConsistent()
      ensures deleted == Cells(old(Pointers(hs))) - Cells(Pointers(hs)) && Freed(deleted)
    {
      assert Pointers(hs)[k] == buffer;
      assert buffer != null ==> buffer in Cells(Pointers(hs));
      deleted := {};
      if buffer == null {
        if capacity > 0 {
          deleted := Replace([], capacity, hs, k);
        }
        return;
      } else if capacity <= |buffer.data| {
        return;
      }
      deleted := CloneDataIfReferenced(Max(|buffer.data|, capacity), hs, k);
      ReservePrivate(capacity, hs, k);
    }

    method Clear(ghost hs: seq<CopyOnWriteBuffer>, ghost k: nat)
      returns (ghost deleted: set<Buffer>)
      requires Valid(hs) && k < |hs| && hs[k] == this
      modifies this, buffer
      ensures Valid(hs) && Pointers(hs) == old(Pointers(hs))[k := buffer]
      ensures buffer == null || buffer == old(buffer) || fresh(buffer)
      ensures forall i :: 0 <= i < |hs| && i != k ==> ViewAt(hs, i) == old(ViewAt(hs, i))
      ensures ViewAt(hs, k) ==
              if old(ViewAt(hs, k)).Null? then Null else Stored([], old(ViewAt(hs, k)).capacity)
      ensures deleted == Cells(old(Pointers(hs))) - Cells(Pointers(hs)) && Freed(deleted)
    {
      assert Pointers(hs)[k] == buffer;
      assert buffer != null ==> buffer in Cells(Pointers(hs));
      deleted := {};
      if buffer == null {
        return;
      }
      if buffer.refCount == 1 {
        ClearPrivate(hs, k);
      } else {
        deleted := Replace([], |buffer.data|, hs, k);
      }
    }

    /** operator[] used for writing: the cell is private before the write. */
    method Put(index: nat, byte: Byte, ghost hs: seq<CopyOnWriteBuffer>, ghost k: nat)
      returns (ghost deleted: set<Buffer>)
      requires Valid(hs) && k < |hs| && hs[k] == this
      requires index < |ViewAt(hs, k).Bytes()|
      modifies this, buffer
      ensures Valid(hs) && Pointers(hs) == old(Pointers(hs))[k := buffer]
      ensures buffer == null || buffer == old(buffer) || fresh(buffer)
      ensures forall i :: 0 <= i < |hs| && i != k ==> ViewAt(hs, i) == old(ViewAt(hs, i))
      ensures ViewAt(hs, k) == Stored(old(ViewAt(hs, k)).Bytes()[index := byte], old(ViewAt(hs, k).capacity))
      ensures deleted == Cells(old(Pointers(hs))) - Cells(Pointers(hs)) && Freed(deleted)
    {
      assert Pointers(hs)[k] == buffer;
      assert buffer != null ==> buffer in Cells(Pointers(hs));
      deleted := CloneDataIfReferenced(|buffer.data|, hs, k);
      PutPrivate(index, byte, hs, k);
    }

    // ----- The operations on two handles -----

    /** Copy assignment, copy construction into a null handle, and SetData(buf). */
    method CopyFrom(src: CopyOnWriteBuffer, ghost hs: seq<CopyOnWriteBuffer>, ghost k: nat, ghost j: nat)
      returns (ghost deleted: set<Buffer>)
      requires Valid(hs) && k < |hs| && hs[k] == this && j < |hs| && hs[j] == src
      modifies this
      modifies (if buffer == null then {} else {buffer})`refCount, (if buffer == null then {} else {buffer})`freed
      modifies (if src.buffer == null then {} else {src.buffer})`refCount
      ensures Valid(hs) && Pointers(hs) == old(Pointers(hs))[k := old(src.buffer)]
      ensures forall i :: 0 <= i < |hs| && i != k ==> ViewAt(hs, i) == old(ViewAt(hs, i))
      ensures ViewAt(hs, k) == old(ViewAt(hs, j))
      ensures deleted == Cells(old(Pointers(hs))) - Cells(Pointers(hs)) && Freed(deleted)
    {
      deleted := {};
      if src != this {
        assert Pointers(hs)[j] == src.buffer;
        deleted := Point(src.buffer, hs, k);
      } else {
        assert Pointers(hs)[k := src.buffer] == Pointers(hs);
      }
    }

    /** scoped_refptr(std::move(r)).swap(*this): the reference changes hands without being
        counted, and the old one is released last, so moving a handle to itself is harmless. */
    method TakeFrom(src: CopyOnWriteBuffer, ghost ptrs: seq<Buffer?>, ghost k: nat, ghost j: nat)
      returns (ghost deleted: set<Buffer>)
      requires k < |ptrs| && j < |ptrs| && ptrs[k] == buffer && ptrs[j] == src.buffer && (k == j <==> src == this)
      requires CountsExact(ptrs)
      modifies this, src
      modifies (if buffer == null then {} else {buffer})`refCount, (if buffer == null then {} else {buffer})`freed
      ensures buffer == ptrs[j] && (src != this ==> src.buffer == null)
      ensures CountsExact(MovedPointer(ptrs, k, j)) && Cells(MovedPointer(ptrs, k, j)) <= Cells(ptrs)
      ensures deleted == Cells(ptrs) - Cells(MovedPointer(ptrs, k, j)) && Freed(deleted)
    {
      var taken := src.buffer;
      src.buffer := null;
      var dropped := buffer;
      buffer := taken;
      deleted := {};
      if dropped != null {
        dropped.refCount := dropped.refCount - 1;
        if dropped.refCount == 0 {
          dropped.freed := true;
          deleted := {dropped};
        }
      }
      if k != j {
        MoveCounts(ptrs, k, j);
      }
    }

    /** Move construction and move assignment. */
    method MoveFrom(src: CopyOnWriteBuffer, ghost hs: seq<CopyOnWriteBuffer>, ghost k: nat, ghost j: nat)
      returns (ghost deleted: set<Buffer>)
      requires Valid(hs) && k < |hs| && hs[k] == this && j < |hs| && hs[j] == src
      modifies this, src
      modifies (if buffer == null then {} else {buffer})`refCount, (if buffer == null then {} else {buffer})`freed
      ensures Valid(hs) && Pointers(hs) == MovedPointer(old(Pointers(hs)), k, j)
      ensures forall i :: 0 <= i < |hs| && i != k && i != j ==> ViewAt(hs, i) == old(ViewAt(hs, i))
      ensures ViewAt(hs, k) == old(ViewAt(hs, j))
      ensures k != j ==> ViewAt(hs, j) == Null
      ensures Cells(Pointers(hs)) <= old(Cells(Pointers(hs)))
      ensures deleted == Cells(old(Pointers(hs))) - Cells(Pointers(hs)) && Freed(deleted)
    {
      ghost var ptrs := Pointers(hs);
      assert ptrs[k] == buffer && ptrs[j] == src.buffer;
      deleted := TakeFrom(src, ptrs, k, j);
      assert Pointers(hs) == MovedPointer(ptrs, k, j);
    }

    method Swap(other: CopyOnWriteBuffer, ghost hs: seq<CopyOnWriteBuffer>, ghost k: nat, ghost j: nat)
      requires Valid(hs) && k < |hs| && hs[k] == this && j < |hs| && hs[j] == other
      modifies this, other
      ensures Valid(hs) && Cells(Pointers(hs)) == old(Cells(Pointers(hs)))
      ensures forall i :: 0 <= i < |hs| && i != k && i != j ==> ViewAt(hs, i) == old(ViewAt(hs, i))
      ensures ViewAt(hs, k) == old(ViewAt(hs, j)) && ViewAt(hs, j) == old(ViewAt(hs, k))
    {
      ghost var ptrs := Pointers(hs);
      SwapCounts(ptrs, k, j);
      assert ptrs[k] == buffer && ptrs[j] == other.buffer;
      buffer, other.buffer := other.buffer, buffer;
      assert Pointers(hs) == ptrs[k := ptrs[j]][j := ptrs[k]];
    }

    /** Appends another handle's bytes. The source demands a different handle, because
        growing this one may free the bytes being copied. */
    method AppendFrom(src: CopyOnWriteBuffer, ghost hs: seq<CopyOnWriteBuffer>, ghost k: nat, ghost j: nat)
      returns (ghost deleted: set<Buffer>)
      requires Valid(hs) && k < |hs| && hs[k] == this && j < |hs| && hs[j] == src && src != this
      modifies this, buffer
      ensures Valid(hs) && Pointers(hs) == old(Pointers(hs))[k := buffer]
      ensures buffer == null || buffer == old(buffer) || fresh(buffer)
      ensures forall i :: 0 <= i < |hs| && i != k ==> ViewAt(hs, i) == old(ViewAt(hs, i))
      ensures ViewAt(hs, k).Stored? && ViewAt(hs, k).bytes == old(ViewAt(hs, k)).Bytes() + old(ViewAt(hs, j)).Bytes()
      ensures old(ViewAt(hs, k)).IsConsistent() ==>
                (ViewAt(hs, k).IsConsistent() <==> !(old(ViewAt(hs, k)).Null? && old(ViewAt(hs, j)).Bytes() == []))
      ensures deleted == Cells(old(Pointers(hs))) - Cells(Pointers(hs)) && Freed(deleted)
    {
      assert Pointers(hs)[j] == src.buffer;
      assert src.buffer != null ==> src.buffer in Cells(Pointers(hs));
      var bytes := if src.buffer == null then [] else src.buffer.data[..src.buffer.size];
      deleted := AppendData(bytes, hs, k);
    }

    /** operator==. */
    method Equals(other: CopyOnWriteBuffer, ghost hs: seq<CopyOnWriteBuffer>, ghost k: nat, ghost j: nat)
      returns (equal: bool)
      requires Valid(hs) && k < |hs| && hs[k] == this && j < |hs| && hs[j] == other
      ensures equal <==> ViewAt(hs, k).Null? == ViewAt(hs, j).Null? && ViewAt(hs, k).Bytes() == ViewAt(hs, j).Bytes()
    {
      assert Pointers(hs)[k] == buffer;
      assert buffer != null ==> buffer in Cells(Pointers(hs));
      assert Pointers(hs)[j] == other.buffer;
      assert other.buffer != null ==> other.buffer in Cells(Pointers(hs));
      equal := buffer == other.buffer ||
        (buffer != null && other.buffer != null &&
         buffer.data[..buffer.size] == other.buffer.data[..other.buffer.size]);
    }
  }

  // ----- Runs -----

  /** The value a handle stands for, with its capacity left out. */
  datatype Content = Absent | Present(bytes: seq<Byte>) {
    function Bytes(): seq<Byte> {
      if Absent? then [] else bytes
    }
  }

  ghost function ContentOf(v: Value): Content {
    if v.Null? then Absent else Present(v.bytes)
  }

  ghost function Contents(hs: seq<CopyOnWriteBuffer>): (cs: seq<Content>)
    requires Valid(hs)
    reads hs, Cells(Pointers(hs))
    ensures |cs| == |hs|
    ensures forall i :: 0 <= i < |hs| ==> cs[i] == ContentOf(ViewAt(hs, i))
  {
    seq(|hs|, i requires 0 <= i < |hs| && Valid(hs)
                reads hs, Cells(Pointers(hs))
              => ContentOf(ViewAt(hs, i)))
  }

  datatype Op =
    | Create
    | Copy(dst: nat, src: nat)
    | Move(dst: nat, src: nat)
    | Swap(dst: nat, src: nat)
    | AppendFrom(dst: nat, src: nat)
    | SetData(h: nat, bytes: seq<Byte>)
    | AppendData(h: nat, bytes: seq<Byte>)
    | SetSize(h: nat, size: nat)
    | EnsureCapacity(h: nat, capacity: nat)
    | Clear(h: nat)
    | Put(h: nat, index: nat, byte: Byte)
    | Destroy(h: nat)

  /** The calls a program may make: on existing handles, within bounds, and never
      appending a handle to itself. */
  predicate Allowed(op: Op, a: seq<Content>) {
    match op
    case Create => true
    case Copy(d, s) => d < |a| && s < |a|
    case Move(d, s) => d < |a| && s < |a|
    case Swap(d, s) => d < |a| && s < |a|
    case AppendFrom(d, s) => d < |a| && s < |a| && d != s
    case Put(h, i, _) => h < |a| && i < |a[h].Bytes()|
    case _ => op.h < |a|
  }

  /** The reference semantics: handles as independent byte strings, each operation
      touching only the handles it names. */
  ghost predicate Step(op: Op, a: seq<Content>, b: seq<Content>)
    requires Allowed(op, a)
  {
    match op
    case Create => b == a + [Absent]
    case Copy(d, s) => b == a[d := a[s]]
    case Move(d, s) => b == if d == s then a else a[s := Absent][d := a[s]]
    case Swap(d, s) => b == a[d := a[s]][s := a[d]]
    case AppendFrom(d, s) => b == a[d := Present(a[d].Bytes() + a[s].Bytes())]
    case SetData(h, bytes) => b == a[h := if a[h].Absent? && bytes == [] then Absent else Present(bytes)]
    case AppendData(h, bytes) => b == a[h := Present(a[h].Bytes() + bytes)]
    case SetSize(h, size) =>
      && |b| == |a| && b == a[h := b[h]]
      && Resized(a[h].Bytes(), b[h].Bytes(), size)
      && (b[h].Absent? <==> a[h].Absent? && size == 0)
    case EnsureCapacity(h, capacity) => b == a[h := if a[h].Absent? && capacity == 0 then Absent else Present(a[h].Bytes())]
    case Clear(h) => b == a[h := if a[h].Absent? then Absent else Present([])]
    case Put(h, i, x) => b == a[h := Present(a[h].Bytes()[i := x])]
    case Destroy(h) => b == a[h := Absent]
  }

  method PerformGrowing(op: Op, hs: seq<CopyOnWriteBuffer>) returns (ghost deleted: set<Buffer>)
    requires Valid(hs) && Allowed(op, Contents(hs))
    requires op.SetData? || op.AppendData? || op.SetSize? || op.EnsureCapacity?
    modifies hs, Cells(Pointers(hs))
    ensures Valid(hs) && Step(op, old(Contents(hs)), Contents(hs))
    ensures deleted == Cells(old(Pointers(hs))) - Cells(Pointers(hs)) && Freed(deleted)
    ensures forall c :: c in Cells(Pointers(hs)) ==> c in old(Cells(Pointers(hs))) || fresh(c)
  {
    ghost var a, ptrs := Contents(hs), Pointers(hs);
    var h := hs[op.h];
    assert h.buffer == Pointers(hs)[op.h];
    match op {
      case SetData(k, bytes) => deleted := h.SetData(bytes, hs, k);
      case AppendData(k, bytes) => deleted := h.AppendData(bytes, hs, k);
      case SetSize(k, size) => deleted := h.SetSize(size, hs, k);
      case EnsureCapacity(k, capacity) => deleted := h.EnsureCapacity(capacity, hs, k);
    }
    ghost var b := Contents(hs);
    assert b == a[op.h := b[op.h]];
    CellsRepointed(ptrs, op.h, h.buffer);
  }

  method PerformSimple(op: Op, hs: seq<CopyOnWriteBuffer>) returns (ghost deleted: set<Buffer>)
    requires Valid(hs) && Allowed(op, Contents(hs))
    requires op.Clear? || op.Put? || op.Destroy?
    modifies hs, Cells(Pointers(hs))
    ensures Valid(hs) && Step(op, old(Contents(hs)), Contents(hs))
    ensures deleted == Cells(old(Pointers(hs))) - Cells(Pointers(hs)) && Freed(deleted)
    ensures forall c :: c in Cells(Pointers(hs)) ==> c in old(Cells(Pointers(hs))) || fresh(c)
  {
    ghost var a, ptrs := Contents(hs), Pointers(hs);
    var h := hs[op.h];
    assert h.buffer == Pointers(hs)[op.h];
    match op {
      case Clear(k) => deleted := h.Clear(hs, k);
      case Put(k, i, x) => deleted := h.Put(i, x, hs, k);
      case Destroy(k) => deleted := h.Point(null, hs, k);
    }
    ghost var b := Contents(hs);
    assert b == a[op.h := b[op.h]];
    CellsRepointed(ptrs, op.h, h.buffer);
  }

  method PerformCopy(op: Op, hs: seq<CopyOnWriteBuffer>) returns (ghost deleted: set<Buffer>)
    requires Valid(hs) && op.Copy? && Allowed(op, Contents(hs))
    modifies hs, Cells(Pointers(hs))
    ensures Valid(hs) && Step(op, old(Contents(hs)), Contents(hs))
    ensures deleted == Cells(old(Pointers(hs))) - Cells(Pointers(hs)) && Freed(deleted)
    ensures forall c :: c in Cells(Pointers(hs)) ==> c in old(Cells(Pointers(hs))) || fresh(c)
  {
    ghost var a, ptrs := Contents(hs), Pointers(hs);
    var h, g := hs[op.dst], hs[op.src];
    assert h.buffer == Pointers(hs)[op.dst] && g.buffer == Pointers(hs)[op.src];
    deleted := h.CopyFrom(g, hs, op.dst, op.src);
    ghost var b := Contents(hs);
    assert b == a[op.dst := b[op.dst]];
    CellsRepointed(ptrs, op.dst, h.buffer);
  }

  method PerformAppendFrom(op: Op, hs: seq<CopyOnWriteBuffer>) returns (ghost deleted: set<Buffer>)
    requires Valid(hs) && op.AppendFrom? && Allowed(op, Contents(hs))
    modifies hs, Cells(Pointers(hs))
    ensures Valid(hs) && Step(op, old(Contents(hs)), Contents(hs))
    ensures deleted == Cells(old(Pointers(hs))) - Cells(Pointers(hs)) && Freed(deleted)
    ensures forall c :: c in Cells(Pointers(hs)) ==> c in old(Cells(Pointers(hs))) || fresh(c)
  {
    ghost var a, ptrs := Contents(hs), Pointers(hs);
    var h, g := hs[op.dst], hs[op.src];
    assert h.buffer == Pointers(hs)[op.dst] && g.buffer == Pointers(hs)[op.src];
    deleted := h.AppendFrom(g, hs, op.dst, op.src);
    ghost var b := Contents(hs);
    assert b == a[op.dst := b[op.dst]];
    CellsRepointed(ptrs, op.dst, h.buffer);
  }

  method PerformMoving(op: Op, hs: seq<CopyOnWriteBuffer>) returns (ghost deleted: set<Buffer>)
    requires Valid(hs) && Allowed(op, Contents(hs))
    requires op.Move? || op.Swap?
    modifies hs, Cells(Pointers(hs))
    ensures Valid(hs) && Step(op, old(Contents(hs)), Contents(hs))
    ensures deleted == Cells(old(Pointers(hs))) - Cells(Pointers(hs)) && Freed(deleted)
    ensures forall c :: c in Cells(Pointers(hs)) ==> c in old(Cells(Pointers(hs))) || fresh(c)
  {
    ghost var a, ptrs := Contents(hs), Pointers(hs);
    var h, g := hs[op.dst], hs[op.src];
    assert h.buffer == Pointers(hs)[op.dst] && g.buffer == Pointers(hs)[op.src];
    deleted := {};
    if op.Move? {
      deleted := h.MoveFrom(g, hs, op.dst, op.src);
    } else {
      h.Swap(g, hs, op.dst, op.src);
    }
    ghost var b := Contents(hs);
    assert b == a[op.src := b[op.src]][op.dst := b[op.dst]];
  }

  method Perform(op: Op, hs: seq<CopyOnWriteBuffer>) returns (hs': seq<CopyOnWriteBuffer>, ghost deleted: set<Buffer>)
    requires Valid(hs) && Allowed(op, Contents(hs))
    modifies hs, Cells(Pointers(hs))
    ensures Valid(hs') && Step(op, old(Contents(hs)), Contents(hs'))
    ensures deleted == Cells(old(Pointers(hs))) - Cells(Pointers(hs')) && Freed(deleted)
    ensures forall c :: c in Cells(Pointers(hs')) ==> c in old(Cells(Pointers(hs))) || fresh(c)
    ensures hs <= hs' && forall i :: |hs| <= i < |hs'| ==> fresh(hs'[i])
  {
    hs' := hs;
    if op.Create? {
      var h := new CopyOnWriteBuffer();
      hs', deleted := hs + [h], {};
      NullHandleAdded(hs, h);
    } else if op.Copy? {
      deleted := PerformCopy(op, hs);
    } else if op.AppendFrom? {
      deleted := PerformAppendFrom(op, hs);
    } else if op.Move? || op.Swap? {
      deleted := PerformMoving(op, hs);
    } else if op.SetData? || op.AppendData? || op.SetSize? || op.EnsureCapacity? {
      deleted := PerformGrowing(op, hs);
    } else {
      deleted := PerformSimple(op, hs);
    }
  }

  lemma NullHandleAdded(hs: seq<CopyOnWriteBuffer>, h: CopyOnWriteBuffer)
    requires Valid(hs) && h !in hs && h.buffer == null
    ensures Valid(hs + [h]) && Contents(hs + [h]) == Contents(hs) + [Absent]
    ensures Cells(Pointers(hs + [h])) == Cells(Pointers(hs))
  {
    var ptrs := Pointers(hs);
    assert Pointers(hs + [h]) == ptrs + [null];
    assert Cells(ptrs + [null]) == Cells(ptrs);
    assert forall c: Buffer :: Count(ptrs + [null], c) == Count(ptrs, c);
    assert CountsExact(ptrs + [null]);
    forall i | 0 <= i < |hs|
      ensures ViewAt(hs + [h], i) == ViewAt(hs, i)
    {
      assert (hs + [h])[i] == hs[i];
    }
  }

  /** A run of the reference semantics. Calls that are not allowed are not made. */
  ghost predicate IsRun(ops: seq<Op>, trace: seq<seq<Content>>) {
    && |trace| == |ops| + 1 && trace[0] == []
    && forall i :: 0 <= i < |ops| ==> Follows(ops[i], trace[i], trace[i + 1])
  }

  ghost predicate Follows(op: Op, a: seq<Content>, b: seq<Content>) {
    if Allowed(op, a) then Step(op, a, b) else b == a
  }

  lemma RunExtended(ops: seq<Op>, trace: seq<seq<Content>>, b: seq<Content>)
    requires 0 < |trace| <= |ops| && IsRun(ops[..|trace| - 1], trace)
    requires Follows(ops[|trace| - 1], trace[|trace| - 1], b)
    ensures IsRun(ops[..|trace|], trace + [b])
  {
  }

  /** Whether a call is allowed, read off the handles themselves. */
  method Permits(op: Op, hs: seq<CopyOnWriteBuffer>) returns (allowed: bool)
    requires Valid(hs)
    ensures allowed <==> Allowed(op, Contents(hs))
  {
    match op {
      case Create => allowed := true;
      case Copy(d, s) => allowed := d < |hs| && s < |hs|;
      case Move(d, s) => allowed := d < |hs| && s < |hs|;
      case Swap(d, s) => allowed := d < |hs| && s < |hs|;
      case AppendFrom(d, s) => allowed := d < |hs| && s < |hs| && d != s;
      case Put(h, i, _) =>
        if h < |hs| {
          var p := hs[h].buffer;
          assert Pointers(hs)[h] == p && (p != null ==> p in Cells(Pointers(hs)));
          assert Contents(hs)[h] == if p == null then Absent else Present(p.Contents());
          allowed := p != null && i < p.size;
        } else {
          allowed := false;
        }
      case _ => allowed := op.h < |hs|;
    }
  }

  method Attempt(op: Op, hs: seq<CopyOnWriteBuffer>) returns (hs': seq<CopyOnWriteBuffer>, ghost deleted: set<Buffer>)
    requires Valid(hs)
    modifies hs, Cells(Pointers(hs))
    ensures Valid(hs') && Follows(op, old(Contents(hs)), Contents(hs'))
    ensures deleted == Cells(old(Pointers(hs))) - Cells(Pointers(hs')) && Freed(deleted)
    ensures forall c :: c in Cells(Pointers(hs')) ==> c in old(Cells(Pointers(hs))) || fresh(c)
    ensures hs <= hs' && forall i :: |hs| <= i < |hs'| ==> fresh(hs'[i])
  {
    var allowed := Permits(op, hs);
    ghost var a := Contents(hs);
    if allowed {
      hs', deleted := Perform(op, hs);
      StepFollows(op, a, Contents(hs'));
    } else {
      hs', deleted := hs, {};
    }
  }

  lemma StepFollows(op: Op, a: seq<Content>, b: seq<Content>)
    requires Allowed(op, a) && Step(op, a, b)
    ensures Follows(op, a, b)
  {
  }

  /** Whatever program runs, its handles read as independent byte strings throughout,
      every count is exact at the end, and of all the cells ever used exactly those that
      no handle points at any more have been deleted. */
  method Run(ops: seq<Op>)
    returns (hs: seq<CopyOnWriteBuffer>, ghost trace: seq<seq<Content>>,
             ghost used: set<Buffer>, ghost deleted: set<Buffer>)
    ensures IsRun(ops, trace)
    ensures Valid(hs) && Contents(hs) == trace[|ops|]
    ensures Cells(Pointers(hs)) <= used && deleted == used - Cells(Pointers(hs))
    ensures forall c :: c in used ==> (c.freed <==> c !in Cells(Pointers(hs)))
  {
    hs, trace, used, deleted := [], [[]], {}, {};
    var i := 0;
    while i < |ops|
      invariant 0 <= i <= |ops|
      invariant (forall j :: 0 <= j < |hs| ==> fresh(hs[j])) && Valid(hs) && fresh(Cells(Pointers(hs)))
      invariant IsRun(ops[..i], trace) && Contents(hs) == trace[i]
      invariant Cells(Pointers(hs)) <= used && deleted == used - Cells(Pointers(hs)) && Freed(deleted)
    {
      ghost var gone;
      hs, gone := Attempt(ops[i], hs);
      used, deleted := used + Cells(Pointers(hs)), deleted + gone;
      RunExtended(ops, trace, Contents(hs));
      trace := trace + [Contents(hs)];
      i := i + 1;
    }
    assert ops[..i] == ops;
  }
}

/** The packet queue of buffer_queue.cc: a bounded queue of buffers that are recycled through
    a free list. */
module PacketQueue {
  import opened Bytes
  import opened Buffers
  import opened Wrappers

  type Packet = seq<Byte>

  function Min(a: nat, b: nat): nat {
    if a < b then a else b
  }

  ghost predicate AllValid(bs: seq<Buffer>)
    reads bs
  {
    forall i :: 0 <= i < |bs| ==> bs[i].Valid()
  }

  ghost predicate Distinct(bs: seq<Buffer>) {
    forall i, j :: 0 <= i < j < |bs| ==> bs[i] != bs[j]
  }

  ghost function Members(bs: seq<Buffer>): (r: set<Buffer>)
    ensures forall i :: 0 <= i < |bs| ==> bs[i] in r
  {
    set i | 0 <= i < |bs| :: bs[i]
  }

  lemma MembersConcat(a: seq<Buffer>, b: seq<Buffer>)
    ensures Members(a + b) == Members(a) + Members(b)
  {
    forall x | x in Members(a) + Members(b)
      ensures x in Members(a + b)
    {
      if x in Members(a) {
        var i :| 0 <= i < |a| && a[i] == x;
        assert (a + b)[i] == x;
      } else {
        var i :| 0 <= i < |b| && b[i] == x;
        assert (a + b)[|a| + i] == x;
      }
    }
  }

  lemma DistinctRecycled(queue: seq<Buffer>, free: seq<Buffer>)
    requires queue != [] && Distinct(queue + free)
    ensures Distinct(queue[1..] + (free + [queue[0]]))
  {
    var was, now := queue + free, queue[1..] + (free + [queue[0]]);
    assert forall i :: 0 <= i < |now| - 1 ==> now[i] == was[i + 1];
    assert now[|now| - 1] == was[0];
  }

  lemma DistinctReused(queue: seq<Buffer>, free: seq<Buffer>)
    requires free != [] && Distinct(queue + free)
    ensures Distinct(queue + [free[|free| - 1]] + free[..|free| - 1])
  {
    var was, now := queue + free, queue + [free[|free| - 1]] + free[..|free| - 1];
    assert now[|queue|] == was[|was| - 1];
    assert forall i :: 0 <= i < |queue| ==> now[i] == was[i];
    assert forall i :: |queue| < i < |now| ==> now[i] == was[i - 1];
  }

  lemma DistinctMiddle(a: seq<Buffer>, b: Buffer, c: seq<Buffer>)
    requires Distinct(a + [b] + c)
    ensures b !in Members(a) && b !in Members(c)
  {
    var all := a + [b] + c;
    assert all[|a|] == b;
    assert forall i :: 0 <= i < |a| ==> all[i] == a[i];
    assert forall i :: 0 <= i < |c| ==> all[|a| + 1 + i] == c[i];
  }

  ghost function Packets(bs: seq<Buffer>): (ps: seq<Packet>)
    requires AllValid(bs)
    reads bs
    ensures |ps| == |bs| && forall i :: 0 <= i < |bs| ==> ps[i] == bs[i].Contents()
  {
    if bs == [] then [] else [bs[0].Contents()] + Packets(bs[1..])
  }

  class BufferQueue {
    const capacity: nat
    const defaultSize: nat
    var queue: seq<Buffer>
    var freeList: seq<Buffer>
    ghost var created: nat  // buffers ever created

    /** Every buffer is in one place, and there are never more than the capacity. */
    ghost predicate Valid()
      reads this, queue, freeList
    {
      && AllValid(queue) && AllValid(freeList)
      && Distinct(queue + freeList)
      && |queue| + |freeList| == created <= capacity
    }

    ghost function Buffers(): set<Buffer>
      reads this
    {
      Members(queue) + Members(freeList)
    }

    ghost function Contents(): seq<Packet>
      requires Valid()
      reads this, queue, freeList
    {
      Packets(queue)
    }

    constructor (capacity: nat, defaultSize: nat)
      ensures Valid() && Contents() == [] && created == 0 && this.capacity == capacity
      ensures queue == [] && freeList == []
    {
      this.capacity, this.defaultSize := capacity, defaultSize;
      queue, freeList, created := [], [], 0;
    }

    method Clear()
      requires Valid()
      modifies this`queue, this`freeList
      ensures Valid() && Contents() == [] && Buffers() == old(Buffers())
    {
      while queue != []
        invariant Valid() && Buffers() == old(Buffers())
        decreases |queue|
      {
        Recycle();
      }
    }

    /** Moves the front buffer to the free list. */
    method Recycle()
      requires Valid() && queue != []
      modifies this`queue, this`freeList
      ensures Valid() && Contents() == old(Contents())[1..]
      ensures queue == old(queue)[1..] && freeList == old(freeList) + [old(queue)[0]]
      ensures Buffers() == old(Buffers())
    {
      assert queue == [queue[0]] + queue[1..];
      DistinctRecycled(queue, freeList);
      MembersConcat([queue[0]], queue[1..]);
      MembersConcat(freeList, [queue[0]]);
      freeList := freeList + [queue[0]];
      queue := queue[1..];
    }

    /** Takes the front packet, cut to the room the caller has. */
    method ReadFront(bytes: nat) returns (read: Option<Packet>)
      requires Valid()
      modifies this`queue, this`freeList
      ensures Valid() && (read.None? <==> old(Contents()) == [])
      ensures read.None? ==> Contents() == []
      ensures read.Some? ==> read.value == old(Contents())[0][..Min(bytes, |old(Contents())[0]|)] && Contents() == old(Contents())[1..]
      ensures Buffers() == old(Buffers())
    {
      if queue == [] {
        return None;
      }
      var packet := queue[0];
      var n := Min(bytes, packet.size);
      read := Some(packet.data[..n]);
      Recycle();
    }

    /** All of the packet or, if the queue is full, nothing. */
    method WriteBack(packet: Packet) returns (ok: bool)
      requires Valid()
      modifies this`queue, this`freeList, this`created, freeList
      ensures Valid() && (ok <==> |old(Contents())| < capacity)
      ensures Contents() == if ok then old(Contents()) + [packet] else old(Contents())
      ensures !ok ==> unchanged(this)
      ensures fresh(Buffers() - old(Buffers()))
    {
      if |queue| == capacity {
        return false;
      }
      var buffer := Obtain(|packet|);
      MembersConcat(queue, [buffer]);
      DistinctMiddle(queue, buffer, freeList);
      Enqueue(buffer, packet);
      ok := true;
    }

    method Enqueue(buffer: Buffer, packet: Packet)
      requires AllValid(queue) && AllValid(freeList) && buffer.Valid() && buffer !in Members(queue) && buffer !in Members(freeList)
      modifies this`queue, buffer
      ensures queue == old(queue) + [buffer] && AllValid(queue) && AllValid(freeList)
      ensures Packets(queue) == old(Packets(queue)) + [packet]
    {
      ghost var was := Packets(queue);
      buffer.SetData(packet);
      queue := queue + [buffer];
      assert Packets(queue) == was + [packet];
    }

    /** A buffer from the free list, or else a new one. */
    method Obtain(bytes: nat) returns (buffer: Buffer)
      requires Valid() && |queue| < capacity
      modifies this`freeList, this`created
      ensures AllValid(queue) && AllValid(freeList) && buffer.Valid() && Packets(queue) == old(Packets(queue))
      ensures Distinct(queue + [buffer] + freeList) && |queue| + 1 + |freeList| == created <= capacity
      ensures buffer in Members(old(freeList)) || fresh(buffer)
      ensures Members(freeList) <= Members(old(freeList))
    {
      if freeList != [] {
        DistinctReused(queue, freeList);
        MembersConcat(freeList[..|freeList| - 1], [freeList[|freeList| - 1]]);
        assert freeList[..|freeList| - 1] + [freeList[|freeList| - 1]] == freeList;
        buffer := freeList[|freeList| - 1];
        freeList := freeList[..|freeList| - 1];
      } else {
        buffer := new Buffer.Sized(bytes, defaultSize);
        created := created + 1;
        assert queue + freeList == queue && queue + [buffer] + freeList == queue + [buffer];
      }
    }
  }

  // ----- Runs -----

  datatype Op = Write(packet: Packet) | Read(room: nat) | Reset

  datatype Answer = Wrote(ok: bool) | Got(packet: Option<Packet>) | Done

  /** A bounded queue of packets, with no buffers in it. */
  function After(q: seq<Packet>, capacity: nat, op: Op): seq<Packet> {
    match op
    case Write(packet) => if |q| < capacity then q + [packet] else q
    case Read(_) => if q == [] then q else q[1..]
    case Reset => []
  }

  function AnswerOf(q: seq<Packet>, capacity: nat, op: Op): Answer {
    match op
    case Write(_) => Wrote(|q| < capacity)
    case Read(room) => Got(if q == [] then None else Some(q[0][..Min(room, |q[0]|)]))
    case Reset => Done
  }

  function AfterAll(capacity: nat, ops: seq<Op>): seq<Packet> {
    if ops == [] then [] else After(AfterAll(capacity, ops[..|ops| - 1]), capacity, ops[|ops| - 1])
  }

  function Answers(capacity: nat, ops: seq<Op>): seq<Answer> {
    if ops == [] then []
    else Answers(capacity, ops[..|ops| - 1]) + [AnswerOf(AfterAll(capacity, ops[..|ops| - 1]), capacity, ops[|ops| - 1])]
  }

  /** The packets that were accepted, and those that have left, by being read or cleared. */
  function AcceptedBy(capacity: nat, ops: seq<Op>): seq<Packet> {
    if ops == [] then []
    else
      var front, last := ops[..|ops| - 1], ops[|ops| - 1];
      AcceptedBy(capacity, front) + if last.Write? && |AfterAll(capacity, front)| < capacity then [last.packet] else []
  }

  function LeftBy(capacity: nat, ops: seq<Op>): seq<Packet> {
    if ops == [] then []
    else
      var front, last := ops[..|ops| - 1], ops[|ops| - 1];
      LeftBy(capacity, front) + Leaving(AfterAll(capacity, front), last)
  }

  /** Packets leave in the order in which they were accepted; none is lost, added or changed. */
  lemma {:induction false} FirstInFirstOut(capacity: nat, ops: seq<Op>)
    ensures AcceptedBy(capacity, ops) == LeftBy(capacity, ops) + AfterAll(capacity, ops)
    ensures |AfterAll(capacity, ops)| <= capacity
  {
    if ops != [] {
      var front, last := ops[..|ops| - 1], ops[|ops| - 1];
      FirstInFirstOut(capacity, front);
      LeavesInOrder(AcceptedBy(capacity, front), LeftBy(capacity, front), AfterAll(capacity, front), capacity, last);
    }
  }

  function Leaving(q: seq<Packet>, op: Op): seq<Packet> {
    match op
    case Write(_) => []
    case Read(_) => if q == [] then [] else [q[0]]
    case Reset => q
  }

  lemma LeavesInOrder(accepted: seq<Packet>, left: seq<Packet>, q: seq<Packet>, capacity: nat, op: Op)
    requires accepted == left + q
    ensures accepted + (if op.Write? && |q| < capacity then [op.packet] else []) == left + Leaving(q, op) + After(q, capacity, op)
  {
    match op
    case Write(packet) =>
      ConcatAssociates(left, q, [packet]);
      assert left + [] == left;
    case Read(_) =>
      if q != [] {
        ConcatAssociates(left, [q[0]], q[1..]);
        assert [q[0]] + q[1..] == q;
      }
    case Reset =>
  }

  method Do(q: BufferQueue, op: Op) returns (answer: Answer)
    requires q.Valid()
    modifies q, q.Buffers()
    ensures q.Valid() && q.Contents() == After(old(q.Contents()), q.capacity, op)
    ensures answer == AnswerOf(old(q.Contents()), q.capacity, op)
    ensures fresh(q.Buffers() - old(q.Buffers()))
  {
    match op {
      case Write(packet) =>
        var ok := q.WriteBack(packet);
        answer := Wrote(ok);
      case Read(room) =>
        var read := q.ReadFront(room);
        answer := Got(read);
      case Reset =>
        q.Clear();
        answer := Done;
    }
  }

  /** Every run answers as a bounded queue of packets would, and never creates more buffers
      than its capacity. */
  method Run(capacity: nat, defaultSize: nat, ops: seq<Op>) returns (q: BufferQueue, answers: seq<Answer>)
    ensures fresh(q) && q.Valid() && q.capacity == capacity && q.created <= capacity
    ensures q.Contents() == AfterAll(capacity, ops) && answers == Answers(capacity, ops)
  {
    q := new BufferQueue(capacity, defaultSize);
    answers := [];
    var i := 0;
    while i < |ops|
      invariant 0 <= i <= |ops| && q.Valid() && q.capacity == capacity && fresh(q)
      invariant fresh(q.Buffers())
      invariant q.Contents() == AfterAll(capacity, ops[..i]) && answers == Answers(capacity, ops[..i])
    {
      assert ops[..i + 1][..i] == ops[..i];
      var answer := Do(q, ops[i]);
      answers := answers + [answer];
      i := i + 1;
    }
    assert ops[..i] == ops;
  }
}

/** BufferQueue: a bounded FIFO of packets that recycles its buffers. */
module BufferQueues {
  import opened Buffers

  type Packet = BufferT<Byte>

  /** Different buffers own different blocks. */
  ghost predicate Apart(a: Packet, b: Packet)
    reads a, b
  {
    a != b ==> a.data != b.data || a.data == null
  }

  ghost predicate Sound(a: Packet)
    reads a
  {
    a.IsConsistent()
  }

  ghost predicate Placed(a: Packet, mem: set<object>)
    reads a
  {
    a in mem && (a.data != null ==> a.data in mem)
  }

  class BufferQueue {
    const capacity: nat
    const defaultSize: nat
    var queue: seq<Packet>
    var freeList: seq<Packet>

    /** All memory the queue may use. */
    ghost var repr: set<object>

    /** How many buffers were ever allocated. */
    ghost var total: nat

    /** All buffers, queued or free. */
    ghost function Owned(): multiset<Packet>
      reads this`queue, this`freeList
    {
      multiset(queue) + multiset(freeList)
    }

    ghost predicate Once(a: Packet)
      reads this`queue, this`freeList
    {
      Owned()[a] == 1
    }

    /** No buffer is held twice, whether queued or free, and no two share a block. */
    ghost predicate Separate()
      reads this`queue, this`freeList, queue, freeList
    {
      && (forall a {:trigger Once(a)} :: a in Owned() ==> Once(a))
      && (forall a {:trigger Sound(a)} :: a in Owned() ==> Sound(a))
      && (forall a, b {:trigger Apart(a, b)} :: a in Owned() && b in Owned() ==> Apart(a, b))
    }

    /** The packet is sound, and held by nobody else. */
    ghost predicate Spare(packet: Packet)
      reads this`queue, this`freeList, queue, freeList, packet
    {
      && packet !in Owned() && Sound(packet)
      && (forall a {:trigger Apart(packet, a)} :: a in Owned() ==> Apart(packet, a))
    }

    ghost predicate Valid()
      reads this, queue, freeList
    {
      Separate() && Within() && total == |queue| + |freeList| <= capacity
    }

    ghost predicate Within()
      reads this`queue, this`freeList, this`repr, queue, freeList
    {
      this !in repr && forall a {:trigger Placed(a, repr)} :: a in Owned() ==> Placed(a, repr)
    }

    /** The packets waiting, oldest first. */
    ghost function Packets(): (p: seq<seq<Byte>>)
      reads this`queue, queue, set a | a in queue && a.data != null :: a.data
      ensures |p| == |queue|
    {
      var q := queue;
      seq(|q|, i requires 0 <= i < |q| reads q, set a | a in q && a.data != null :: a.data => q[i].Value())
    }

    constructor (capacity: nat, defaultSize: nat)
      ensures Valid() && Packets() == [] && this.capacity == capacity && total == 0 && repr == {}
    {
      this.capacity, this.defaultSize := capacity, defaultSize;
      queue, freeList := [], [];
      total, repr := 0, {};
    }

    method Clear()
      requires Valid()
      modifies this
      ensures Valid() && Packets() == []
      ensures Owned() == old(Owned()) && total == old(total) && repr == old(repr)
    {
      while queue != []
        invariant Valid() && Owned() == old(Owned()) && total == old(total) && repr == old(repr)
        decreases |queue|
      {
        var _ := Requeue();
      }
    }

    /** The oldest packet's buffer moves to the free list. */
    method Requeue() returns (packet: Packet)
      requires Valid() && queue != []
      modifies this`queue, this`freeList
      ensures Owned() == old(Owned())
      ensures Valid() && packet == old(queue[0])
      ensures queue == old(queue[1..]) && freeList == old(freeList) + [packet]
    {
      packet := queue[0];
      assert queue == [packet] + queue[1..];
      queue, freeList := queue[1..], freeList + [packet];
      assert Owned() == old(Owned());
      forall a | a in Owned() ensures Once(a) && Sound(a) && Placed(a, repr) {
        assert old(Once(a)) && old(Sound(a)) && old(Placed(a, repr));
      }
    }

    /** Reads a prefix of the oldest packet, the rest of which is lost. */
    method ReadFront(bytes: nat) returns (ok: bool, data: seq<Byte>)
      requires Valid()
      modifies this
      ensures Valid() && ok == (old(queue) != [])
      ensures Owned() == old(Owned()) && total == old(total) && repr == old(repr)
      ensures !ok ==> data == [] && Packets() == old(Packets())
      ensures ok ==> Packets() == old(Packets())[1..] && data <= old(Packets())[0]
      ensures ok ==> |data| == if bytes < |old(Packets())[0]| then bytes else |old(Packets())[0]|
    {
      if queue == [] {
        return false, [];
      }
      assert Sound(queue[0]);
      var packet := Requeue();
      var n := if bytes < packet.size then bytes else packet.size;
      data := packet.Contents()[..n];
      ok := true;
    }

    /** Writes a whole packet, or nothing if the queue is full. A recycled buffer is preferred. */
    method WriteBack(data: seq<Byte>) returns (ok: bool)
      requires Valid()
      modifies this, repr
      ensures Valid() && ok == (old(|queue|) < capacity) && fresh(repr - old(repr))
      ensures Packets() == if ok then old(Packets()) + [data] else old(Packets())
      ensures total == old(total) + if ok && old(freeList) == [] then 1 else 0
      ensures !ok || old(freeList) != [] ==> Owned() == old(Owned())
      ensures ok && old(freeList) == [] ==>
                freeList == [] && queue[..|queue| - 1] == old(queue) && fresh(queue[|queue| - 1])
    {
      if |queue| == capacity {
        return false;
      }
      var packet := Prepare(data);
      Enqueue(packet);
      ok := true;
    }

    /** A packet with the data, in a recycled buffer or a new one, that the queue does not hold yet. */
    method Prepare(data: seq<Byte>) returns (packet: Packet)
      requires Valid() && |queue| < capacity
      modifies this`freeList, this`total, this`repr, repr
      ensures Separate() && Within() && Spare(packet) && Placed(packet, repr)
      ensures total == |queue| + |freeList| + 1 <= capacity && fresh(repr - old(repr))
      ensures packet.Value() == data && Packets() == old(Packets())
      ensures if old(freeList) == [] then
                freeList == [] && Owned() == old(Owned()) && total == old(total) + 1 && fresh(packet)
              else
                Owned() + multiset{packet} == old(Owned()) && total == old(total)
    {
      packet := TakeSpare(|data|);
      Fill(packet, data);
      ghost var mem := repr;
      Admit(packet);
      assert mem == old(repr);
      forall x | x in repr && x !in mem ensures fresh(x) {
        assert x in repr - mem;
        if x == packet { assert fresh(packet); } else { assert fresh(packet.data); }
      }
    }

    method TakeSpare(bytes: nat) returns (packet: Packet)
      requires Valid() && |queue| < capacity
      modifies this`freeList, this`total
      ensures Separate() && Within() && Spare(packet) && total == |queue| + |freeList| + 1 <= capacity
      ensures Packets() == old(Packets())
      ensures if old(freeList) == [] then
                freeList == [] && Owned() == old(Owned()) && total == old(total) + 1 && fresh(packet)
              else
                Owned() + multiset{packet} == old(Owned()) && total == old(total) && packet in repr
      ensures packet.data == null || packet.data in repr || fresh(packet.data)
    {
      if freeList != [] {
        packet := PopFree();
      } else {
        packet := Allocate(bytes);
      }
    }

    /** The most recently freed buffer. */
    method PopFree() returns (packet: Packet)
      requires Valid() && freeList != []
      modifies this`freeList
      ensures Separate() && Within() && Spare(packet) && old(freeList) == freeList + [packet] && Placed(packet, repr)
      ensures Owned() + multiset{packet} == old(Owned()) && packet in old(freeList)
      ensures Packets() == old(Packets())
    {
      packet := freeList[|freeList| - 1];
      assert freeList == freeList[..|freeList| - 1] + [packet];
      assert Once(packet) && Sound(packet) && Placed(packet, repr);
      freeList := freeList[..|freeList| - 1];
      assert Owned() + multiset{packet} == old(Owned());
      forall a | a in Owned() ensures Once(a) && Sound(a) && Placed(a, repr) {
        assert old(Once(a)) && old(Sound(a)) && old(Placed(a, repr));
      }
      forall a | a in Owned() ensures Apart(packet, a) { assert old(Apart(packet, a)); }
      forall a, b | a in Owned() && b in Owned() ensures Apart(a, b) { assert old(Apart(a, b)); }
    }

    method Allocate(bytes: nat) returns (packet: Packet)
      requires Separate()
      modifies this`total
      ensures Separate() && Spare(packet) && total == old(total) + 1
      ensures fresh(packet) && (packet.data != null ==> fresh(packet.data))
      ensures Packets() == old(Packets())
    {
      packet := new BufferT(bytes, defaultSize);
      total := total + 1;
    }

    /** The packet is written while no other buffer, and so no waiting packet, changes. */
    method Fill(packet: Packet, data: seq<Byte>)
      requires Separate() && Within() && Spare(packet)
      modifies packet, packet.data
      ensures Separate() && Within() && Spare(packet) && packet.Value() == data
      ensures Packets() == old(Packets())
      ensures packet.data == old(packet.data) || fresh(packet.data)
    {
      packet.SetData(data);
      forall a | a in Owned() ensures Sound(a) && Apart(packet, a) && Once(a) && Placed(a, repr) {
        assert old(Sound(a)) && old(Apart(packet, a)) && old(Once(a)) && old(Placed(a, repr));
      }
      forall a, b | a in Owned() && b in Owned() ensures Apart(a, b) {
        assert old(Apart(a, b));
      }
      forall i | 0 <= i < |queue| ensures queue[i].Value() == old(queue[i].Value()) {
        assert queue[i] in Owned() && old(Apart(packet, queue[i]));
      }
    }

    ghost method Admit(packet: Packet)
      requires Separate() && Within() && Spare(packet)
      modifies this`repr
      ensures Separate() && Within() && Spare(packet) && Placed(packet, repr) && Packets() == old(Packets())
      ensures forall x :: x in repr - old(repr) ==> x == packet || x == packet.data
    {
      repr := repr + {packet} + if packet.data == null then {} else {packet.data};
      forall a | a in Owned() ensures Placed(a, repr) { assert old(Placed(a, repr)); }
    }

    method Enqueue(packet: Packet)
      requires Separate() && Within() && Spare(packet) && Placed(packet, repr)
      requires total == |queue| + |freeList| + 1 <= capacity
      modifies this`queue
      ensures queue == old(queue) + [packet] && Owned() == old(Owned()) + multiset{packet}
      ensures Valid() && Packets() == old(Packets()) + [packet.Value()]
    {
      queue := queue + [packet];
      assert Owned() == old(Owned()) + multiset{packet};
      forall a | a in Owned() ensures Once(a) && Sound(a) && Placed(a, repr) && Apart(packet, a) && Apart(a, packet) {
        if a != packet { assert old(Once(a)) && old(Sound(a)) && old(Placed(a, repr)) && old(Apart(packet, a)); }
      }
      forall a, b | a in Owned() && b in Owned() ensures Apart(a, b) {
        if a != packet && b != packet { assert old(Apart(a, b)); }
      }
    }
  }

  // ---- The specification: a list of packets, with room for so many ----

  datatype Op = Write(data: seq<Byte>) | Read(bytes: nat) | Clear

  datatype Answer = Full | Wrote | Nothing | Got(data: seq<Byte>) | Cleared

  function Front(packet: seq<Byte>, bytes: nat): seq<Byte> {
    packet[..if bytes < |packet| then bytes else |packet|]
  }

  function Next(capacity: nat, packets: seq<seq<Byte>>, op: Op): (seq<seq<Byte>>, Answer) {
    match op
    case Write(data) => if |packets| < capacity then (packets + [data], Wrote) else (packets, Full)
    case Read(bytes) => if packets == [] then (packets, Nothing) else (packets[1..], Got(Front(packets[0], bytes)))
    case Clear => ([], Cleared)
  }

  function Run(capacity: nat, packets: seq<seq<Byte>>, ops: seq<Op>): (seq<seq<Byte>>, seq<Answer>)
    decreases |ops|
  {
    if ops == [] then (packets, [])
    else
      var (p, a) := Next(capacity, packets, ops[0]);
      var (q, rest) := Run(capacity, p, ops[1..]);
      (q, [a] + rest)
  }

  /** The packets that writes put in, in order. */
  function Accepted(ops: seq<Op>, answers: seq<Answer>): seq<seq<Byte>>
    requires |ops| == |answers|
  {
    if ops == [] then []
    else (if ops[0].Write? && answers[0] == Wrote then [ops[0].data] else []) + Accepted(ops[1..], answers[1..])
  }

  /** The answers to calls on a queue of n packets, given the packets that left it, in order: a read gives the
      front of the next one, a clear drops all n, and nothing is refused but by a full or an empty queue. */
  predicate Explains(capacity: nat, n: nat, ops: seq<Op>, answers: seq<Answer>, gone: seq<seq<Byte>>)
    requires |ops| == |answers|
    decreases |ops|
  {
    if ops == [] then gone == []
    else
      var rest, later := ops[1..], answers[1..];
      match ops[0]
      case Write(_) =>
        if n < capacity then answers[0] == Wrote && Explains(capacity, n + 1, rest, later, gone)
        else answers[0] == Full && Explains(capacity, n, rest, later, gone)
      case Read(bytes) =>
        if n > 0 then
          && gone != [] && answers[0] == Got(Front(gone[0], bytes))
          && Explains(capacity, n - 1, rest, later, gone[1..])
        else answers[0] == Nothing && Explains(capacity, n, rest, later, gone)
      case Clear =>
        n <= |gone| && answers[0] == Cleared && Explains(capacity, 0, rest, later, gone[n..])
  }

  /** Over any run, first in is first out: what was waiting and what was accepted is, in order, what left by
      reads and clears, and what is waiting now. */
  lemma {:induction false} FirstInFirstOut(capacity: nat, packets: seq<seq<Byte>>, ops: seq<Op>)
    returns (gone: seq<seq<Byte>>)
    requires |packets| <= capacity
    ensures var (waiting, answers) := Run(capacity, packets, ops);
            && |answers| == |ops| && |waiting| <= capacity
            && packets + Accepted(ops, answers) == gone + waiting
            && Explains(capacity, |packets|, ops, answers, gone)
    decreases |ops|
  {
    if ops == [] {
      gone := [];
    } else {
      var (p, a) := Next(capacity, packets, ops[0]);
      var rest := FirstInFirstOut(capacity, p, ops[1..]);
      var (waiting, answers) := Run(capacity, p, ops[1..]);
      assert ([a] + answers)[1..] == answers;
      gone := Left(packets, a) + rest;
      Conserved(capacity, packets, ops[0], Accepted(ops[1..], answers), rest, waiting);
      assert gone[|Left(packets, a)|..] == rest;
    }
  }

  /** The packets that leave with this answer. */
  function Left(packets: seq<seq<Byte>>, a: Answer): seq<seq<Byte>> {
    if a.Got? && packets != [] then [packets[0]] else if a.Cleared? then packets else []
  }

  lemma Conserved(capacity: nat, packets: seq<seq<Byte>>, op: Op,
                  later: seq<seq<Byte>>, rest: seq<seq<Byte>>, waiting: seq<seq<Byte>>)
    requires Next(capacity, packets, op).0 + later == rest + waiting
    ensures var (p, a) := Next(capacity, packets, op);
            packets + ((if op.Write? && a == Wrote then [op.data] else []) + later) == Left(packets, a) + rest + waiting
  {
    var (p, a) := Next(capacity, packets, op);
    assert packets + ((if a == Wrote then [op.data] else []) + later) == Left(packets, a) + (p + later);
    assert Left(packets, a) + (rest + waiting) == Left(packets, a) + rest + waiting;
  }

  /** The queue does one step of the specification. */
  method Do(q: BufferQueue, op: Op) returns (answer: Answer)
    requires q.Valid()
    modifies q, q.repr
    ensures q.Valid() && (q.Packets(), answer) == Next(q.capacity, old(q.Packets()), op)
    ensures fresh(q.repr - old(q.repr))
  {
    ghost var packets := q.Packets();
    match op {
      case Write(data) =>
        var ok := q.WriteBack(data);
        answer := if ok then Wrote else Full;
      case Read(bytes) =>
        var ok, data := q.ReadFront(bytes);
        answer := if ok then Got(data) else Nothing;
        assert ok ==> data == Front(packets[0], bytes);
      case Clear =>
        q.Clear();
        answer := Cleared;
    }
  }

  lemma {:induction false} OneMore(capacity: nat, packets: seq<seq<Byte>>, ops: seq<Op>, op: Op)
    ensures var (p, answers) := Run(capacity, packets, ops);
            var (q, a) := Next(capacity, p, op);
            Run(capacity, packets, ops + [op]) == (q, answers + [a])
    decreases |ops|
  {
    if ops == [] {
      assert [op][1..] == [] && [op][0] == op;
      assert ops + [op] == [op];
      var a := Next(capacity, packets, op).1;
      assert [a] + [] == [] + [a];
    } else {
      assert (ops + [op])[1..] == ops[1..] + [op];
      var (p, a) := Next(capacity, packets, ops[0]);
      OneMore(capacity, p, ops[1..], op);
      var (q, answers) := Run(capacity, p, ops[1..]);
      var last := Next(capacity, q, op).1;
      assert [a] + (answers + [last]) == [a] + answers + [last];
    }
  }

  /** Over any run of a new queue, recycling included: the packets accepted are, in order, those that left and
      those waiting, and at most capacity buffers are ever allocated. */
  method RunFromEmpty(capacity: nat, defaultSize: nat, ops: seq<Op>)
    returns (q: BufferQueue, answers: seq<Answer>, ghost gone: seq<seq<Byte>>)
    ensures fresh(q) && q.Valid() && q.capacity == capacity && q.total <= capacity
    ensures (q.Packets(), answers) == Run(capacity, [], ops)
    ensures |answers| == |ops| && Explains(capacity, 0, ops, answers, gone)
    ensures Accepted(ops, answers) == gone + q.Packets()
  {
    q := new BufferQueue(capacity, defaultSize);
    answers := [];
    for i := 0 to |ops|
      invariant fresh(q) && fresh(q.repr) && q.Valid() && q.capacity == capacity
      invariant (q.Packets(), answers) == Run(capacity, [], ops[..i])
    {
      OneMore(capacity, [], ops[..i], ops[i]);
      assert ops[..i + 1] == ops[..i] + [ops[i]];
      var answer := Do(q, ops[i]);
      answers := answers + [answer];
    }
    assert ops[..|ops|] == ops;
    gone := FirstInFirstOut(capacity, [], ops);
    assert [] + Accepted(ops, answers) == Accepted(ops, answers);
  }
}

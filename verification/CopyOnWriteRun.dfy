/** Whole runs of copy-on-write buffers: they behave as plain byte strings. */
module CopyOnWriteRuns {
  import opened Buffers
  import opened ScopedRefptrs
  import opened CopyOnWrite

  /** Calls on a list of buffers, by index: New and CopyOf construct one at the end, Drop destroys one. */
  datatype Op =
    | New(size: nat, capacity: nat)
    | CopyOf(j: nat)
    | Drop(i: nat)
    | SetData(i: nat, source: seq<Byte>)
    | Append(i: nat, source: seq<Byte>)
    | AppendBuffer(i: nat, j: nat)
    | Assign(i: nat, j: nat)
    | Move(i: nat, j: nat)
    | Swap(i: nat, j: nat)
    | Resize(i: nat, size: nat)
    | Reserve(i: nat, capacity: nat)
    | Clear(i: nat)
    | SetByte(i: nat, index: nat, value: Byte)

  /** Calls that write through one buffer, and those that only repoint handles. */
  predicate IsWrite(op: Op) {
    op.SetData? || op.Append? || op.AppendBuffer? || op.Resize? || op.Reserve? || op.Clear? || op.SetByte?
  }

  predicate IsRepoint(op: Op) {
    op.Assign? || op.Move? || op.Swap?
  }

  /** What the callers must see to: indices in range, no append of a buffer to itself. */
  predicate Proper(values: seq<seq<Byte>>, op: Op) {
    match op
    case New(_, _) => true
    case CopyOf(j) => j < |values|
    case AppendBuffer(i, j) => i < |values| && j < |values| && i != j
    case Assign(i, j) => i < |values| && j < |values|
    case Move(i, j) => i < |values| && j < |values|
    case Swap(i, j) => i < |values| && j < |values|
    case SetByte(i, index, _) => i < |values| && index < |values[i]|
    case _ => op.i < |values|
  }

  /** The same call on byte strings; fill is what a new or grown buffer exposes. */
  function Applied(values: seq<seq<Byte>>, op: Op, fill: seq<Byte>): seq<seq<Byte>> {
    if !Proper(values, op) then values
    else
      match op
      case New(_, _) => values + [fill]
      case CopyOf(j) => values + [values[j]]
      case Drop(i) => values[..i] + values[i + 1..]
      case SetData(i, source) => values[i := source]
      case Append(i, source) => values[i := values[i] + source]
      case AppendBuffer(i, j) => values[i := values[i] + values[j]]
      case Assign(i, j) => values[i := values[j]]
      case Move(i, j) => if i == j then values else values[i := values[j]][j := []]
      case Swap(i, j) => values[i := values[j]][j := values[i]]
      case Resize(i, size) => values[i := Refilled(values[i], size, fill)]
      case Reserve(_, _) => values
      case Clear(i) => values[i := []]
      case SetByte(i, index, value) => values[i := values[i][index := value]]
  }

  /** The front of the value, and the fill if that makes up the size. */
  function Refilled(value: seq<Byte>, size: nat, fill: seq<Byte>): seq<Byte> {
    value[..Min(|value|, size)] + fill
  }

  function Run(values: seq<seq<Byte>>, ops: seq<Op>, fills: seq<seq<Byte>>): seq<seq<Byte>>
    requires |ops| == |fills|
    decreases |ops|
  {
    if ops == [] then values else Run(Applied(values, ops[0], fills[0]), ops[1..], fills[1..])
  }

  /** A construction or resize exposes just the bytes it adds, every other call none. */
  predicate Fitting(values: seq<seq<Byte>>, op: Op, fill: seq<Byte>) {
    if op.New? then |fill| == op.size
    else if IsWrite(op) && op.i < |values| then FitsValue(values[op.i], op, fill)
    else fill == []
  }

  predicate AllFitting(values: seq<seq<Byte>>, ops: seq<Op>, fills: seq<seq<Byte>>)
    requires |ops| == |fills|
    decreases |ops|
  {
    ops == []
    || (Fitting(values, ops[0], fills[0]) && AllFitting(Applied(values, ops[0], fills[0]), ops[1..], fills[1..]))
  }

  lemma {:induction false} OneMore(values: seq<seq<Byte>>, ops: seq<Op>, fills: seq<seq<Byte>>, op: Op, fill: seq<Byte>)
    requires |ops| == |fills| && AllFitting(values, ops, fills) && Fitting(Run(values, ops, fills), op, fill)
    ensures AllFitting(values, ops + [op], fills + [fill])
    ensures Run(values, ops + [op], fills + [fill]) == Applied(Run(values, ops, fills), op, fill)
    decreases |ops|
  {
    var ops', fills' := ops + [op], fills + [fill];
    if ops == [] {
      assert ops' == [op] && fills' == [fill] && ops'[1..] == [] && fills'[1..] == [];
    } else {
      OneMore(Applied(values, ops[0], fills[0]), ops[1..], fills[1..], op, fill);
      assert ops'[1..] == ops[1..] + [op] && fills'[1..] == fills[1..] + [fill];
    }
  }

  lemma NextPrefix(ops: seq<Op>, k: nat, fills: seq<seq<Byte>>, fill: seq<Byte>)
    requires k < |ops| && |fills| == k && AllFitting([], ops[..k], fills)
    requires Fitting(Run([], ops[..k], fills), ops[k], fill)
    ensures AllFitting([], ops[..k + 1], fills + [fill])
    ensures Run([], ops[..k + 1], fills + [fill]) == Applied(Run([], ops[..k], fills), ops[k], fill)
  {
    OneMore([], ops[..k], fills, ops[k], fill);
    assert ops[..k + 1] == ops[..k] + [ops[k]];
  }

  type BufferList = seq<CopyOnWriteBuffer>

  ghost predicate Member(b: CopyOnWriteBuffer, arena: Arena)
    reads arena
  {
    b.handle in arena.handles
  }

  ghost predicate World(buffers: BufferList, arena: Arena)
    reads arena, arena.handles, arena.objects, set o | o in arena.objects :: o.buffer
  {
    && arena.Valid()
    && (forall i {:trigger buffers[i]} :: 0 <= i < |buffers| ==> Member(buffers[i], arena))
    && (forall i, j :: 0 <= i < j < |buffers| ==> buffers[i].handle != buffers[j].handle)
  }

  /** All memory the arena uses. */
  ghost predicate Within(arena: Arena, mem: set<object>)
    reads arena, set o | o in arena.objects :: o.buffer
  {
    forall o {:trigger Placed(o, mem)} :: o in arena.objects ==> Placed(o, mem)
  }

  ghost predicate Placed(o: RefCountedBuffer, mem: set<object>)
    reads o.buffer
  {
    o in mem && o.buffer in mem && (o.buffer.data != null ==> o.buffer.data in mem)
  }

  /** mem, and what a call through b may have added to it. */
  ghost function Grown(b: CopyOnWriteBuffer, was: RefCountedBuffer?, mem: set<object>): set<object>
    reads b.handle, if b.handle.ptr == null then {} else {b.handle.ptr.buffer}
    reads if was == null then {} else {was.buffer}
  {
    mem + b.handle.Block() + (if b.handle.ptr == null then {} else {b.handle.ptr})
    + (if was == null || was.buffer.data == null then {} else {was.buffer.data})
  }

  ghost predicate Live(b: CopyOnWriteBuffer, arena: Arena)
    reads b.handle, arena
  {
    b.handle.ptr == null || b.handle.ptr in arena.objects
  }

  lemma ValidIsLive(b: CopyOnWriteBuffer, arena: Arena)
    requires b.Valid(arena)
    ensures Live(b, arena)
  {
    if b.handle.ptr != null { b.LiveBlock(arena); }
  }

  ghost function Blocks(arena: Arena): map<RefCountedBuffer, array?<Byte>>
    reads arena, set o | o in arena.objects :: o.buffer
  {
    map o | o in arena.objects :: o.buffer.data
  }

  ghost predicate WasPlaced(o: RefCountedBuffer, block: array?<Byte>, mem: set<object>) {
    o in mem && o.buffer in mem && (block != null ==> block in mem)
  }

  /** After a call that added at most this handle's object, and moved no block but that of was. */
  lemma LocalGrows(b: CopyOnWriteBuffer, arena: Arena, was: RefCountedBuffer?,
      blocks: map<RefCountedBuffer, array?<Byte>>, mem: set<object>)
    requires forall o {:trigger blocks[o]} :: o in blocks ==> WasPlaced(o, blocks[o], mem)
    requires arena.objects == blocks.Keys || (b.handle.ptr != null && arena.objects == blocks.Keys + {b.handle.ptr})
    requires forall o {:trigger blocks[o]} :: o in blocks && o != was ==> o.buffer.data == blocks[o]
    ensures Within(arena, Grown(b, was, mem))
  {
    forall o | o in arena.objects ensures Placed(o, Grown(b, was, mem)) {
      if o != b.handle.ptr { assert WasPlaced(o, blocks[o], mem); }
    }
  }

  ghost function Values(buffers: BufferList): (v: seq<seq<Byte>>)
    reads buffers, set b | b in buffers :: b.handle
    reads set b | b in buffers && b.handle.ptr != null :: b.handle.ptr.buffer
    reads set b | b in buffers && b.handle.ptr != null && b.handle.ptr.buffer.data != null :: b.handle.ptr.buffer.data
    ensures |v| == |buffers|
  {
    seq(|buffers|, i requires 0 <= i < |buffers|
        reads set b | b in buffers :: b.handle
        reads set b | b in buffers && b.handle.ptr != null :: b.handle.ptr.buffer
        reads set b | b in buffers && b.handle.ptr != null && b.handle.ptr.buffer.data != null
                :: b.handle.ptr.buffer.data
      => buffers[i].handle.Value())
  }

  /** The value the buffer at op.i ends with. */
  function Result(value: seq<Byte>, other: seq<Byte>, op: Op, fill: seq<Byte>): seq<Byte>
    requires IsWrite(op)
    requires op.SetByte? ==> op.index < |value|
  {
    match op
    case SetData(_, source) => source
    case Append(_, source) => value + source
    case AppendBuffer(_, _) => value + other
    case Resize(_, size) => Refilled(value, size, fill)
    case Reserve(_, _) => value
    case Clear(_) => []
    case SetByte(_, index, byte) => value[index := byte]
  }

  predicate FitsValue(value: seq<Byte>, op: Op, fill: seq<Byte>) {
    |fill| == if op.Resize? && op.size > |value| then op.size - |value| else 0
  }

  /** A call that writes through one buffer. */
  method Write(b: CopyOnWriteBuffer, other: CopyOnWriteBuffer, op: Op, ghost arena: Arena)
    returns (ghost fill: seq<Byte>)
    requires b.Valid(arena) && other.Valid(arena)
    requires IsWrite(op) && (op.AppendBuffer? ==> other.handle != b.handle)
    requires op.SetByte? ==> op.index < |b.handle.Value()|
    modifies arena`objects, b.handle, arena.objects, b.handle.Block()
    ensures b.Valid(arena) && b.OthersKeep(arena) && b.Local(arena)
    ensures b.handle.Value() == Result(old(b.handle.Value()), old(other.handle.Value()), op, fill)
    ensures FitsValue(old(b.handle.Value()), op, fill)
  {
    fill := [];
    match op {
      case SetData(_, source) => b.SetData(source, arena);
      case Append(_, source) => b.AppendData(source, arena);
      case AppendBuffer(_, _) => b.AppendBuffer(other, arena);
      case Resize(_, size) =>
        ghost var kept := Min(|b.handle.Value()|, size);
        b.SetSize(size, arena);
        fill := b.handle.Value()[kept..];
        assert b.handle.Value() == b.handle.Value()[..kept] + fill;
      case Reserve(_, capacity) => b.EnsureCapacity(capacity, arena);
      case Clear(_) => b.Clear(arena);
      case SetByte(_, index, value) => b.Set(index, value, arena);
    }
  }

  /** The same call, with the memory it may have added. */
  method WriteWithin(b: CopyOnWriteBuffer, other: CopyOnWriteBuffer, op: Op, ghost arena: Arena, ghost mem: set<object>)
    returns (ghost after: set<object>, ghost fill: seq<Byte>)
    requires b.Valid(arena) && other.Valid(arena) && Within(arena, mem)
    requires IsWrite(op) && (op.AppendBuffer? ==> other.handle != b.handle)
    requires op.SetByte? ==> op.index < |b.handle.Value()|
    modifies arena`objects, b.handle, arena.objects, mem
    ensures b.Valid(arena) && b.OthersKeep(arena)
    ensures b.handle.Value() == Result(old(b.handle.Value()), old(other.handle.Value()), op, fill)
    ensures FitsValue(old(b.handle.Value()), op, fill)
    ensures Within(arena, after) && mem <= after && fresh(after - mem)
  {
    BlockWithin(b, arena, mem);
    BlockIsOwn(b, arena);
    ghost var was, blocks := b.handle.ptr, Blocks(arena);
    forall o | o in blocks ensures WasPlaced(o, blocks[o], mem) { assert Placed(o, mem); }
    ValidIsLive(b, arena);
    fill := Write(b, other, op, arena);
    ValidIsLive(b, arena);
    LocalGrows(b, arena, was, blocks, mem);
    after := Grown(b, was, mem);
    assert b.handle.ptr != null && b.handle.ptr in blocks ==> WasPlaced(b.handle.ptr, blocks[b.handle.ptr], mem);
    assert was != null ==> WasPlaced(was, blocks[was], mem);
  }

  /** One write, seen from all buffers. */
  method Step(buffers: BufferList, op: Op, ghost arena: Arena, ghost mem: set<object>)
    returns (ghost after: set<object>, ghost fill: seq<Byte>)
    requires World(buffers, arena) && Within(arena, mem) && Proper(Values(buffers), op) && IsWrite(op)
    modifies arena`objects, buffers[op.i].handle, arena.objects, mem
    ensures arena.handles == old(arena.handles)
    ensures World(buffers, arena) && Within(arena, after) && mem <= after && fresh(after - mem)
    ensures Values(buffers) == Applied(old(Values(buffers)), op, fill) && Fitting(old(Values(buffers)), op, fill)
  {
    ghost var values := Values(buffers);
    var b := buffers[op.i];
    var other := if op.AppendBuffer? then buffers[op.j] else b;
    assert Member(b, arena) && Member(other, arena);
    after, fill := WriteWithin(b, other, op, arena, mem);
    forall i | 0 <= i < |buffers|
      ensures Member(buffers[i], arena) && buffers[i].handle.Value() == Applied(values, op, fill)[i]
    {
      assert old(Member(buffers[i], arena));
      AppliedAt(values, op, fill, i);
    }
    assert Values(buffers) == Applied(values, op, fill);
  }

  lemma AppliedAt(values: seq<seq<Byte>>, op: Op, fill: seq<Byte>, i: nat)
    requires Proper(values, op) && IsWrite(op) && i < |values|
    ensures i != op.i ==> Applied(values, op, fill)[i] == values[i]
    ensures Applied(values, op, fill)[op.i]
            == Result(values[op.i], if op.AppendBuffer? then values[op.j] else values[op.i], op, fill)
  {
  }

  lemma BlockIsOwn(b: CopyOnWriteBuffer, arena: Arena)
    requires b.Valid(arena)
    ensures forall o :: o in arena.objects && o != b.handle.ptr ==> o.buffer !in b.handle.Block()
  {
    if b.handle.ptr != null {
      b.LiveBlock(arena);
      forall o | o in arena.objects && o != b.handle.ptr ensures o.buffer !in b.handle.Block() {
        assert arena.Apart(o, b.handle.ptr);
      }
    }
  }

  lemma BlockWithin(b: CopyOnWriteBuffer, arena: Arena, mem: set<object>)
    requires b.Valid(arena) && Within(arena, mem)
    ensures b.handle.Block() <= mem
  {
    if b.handle.ptr != null {
      b.LiveBlock(arena);
      assert Placed(b.handle.ptr, mem);
    }
  }

  /** Assignments, moves and swaps only repoint handles. */
  method Repoint(buffers: BufferList, op: Op, ghost arena: Arena, ghost mem: set<object>)
    requires World(buffers, arena) && Within(arena, mem) && Proper(Values(buffers), op) && IsRepoint(op)
    modifies arena`handles, buffers[op.i].handle, buffers[op.j].handle, arena.objects
    ensures World(buffers, arena) && Within(arena, mem) && arena.handles == old(arena.handles)
    ensures Values(buffers) == Applied(old(Values(buffers)), op, [])
  {
    ghost var values := Values(buffers);
    var b, other := buffers[op.i], buffers[op.j];
    assert Member(b, arena) && Member(other, arena);
    forall o | o in arena.objects ensures Placed(o, mem) {}
    if op.Assign? {
      b.Assign(other, arena);
    } else if op.Move? {
      b.MoveAssign(other, arena);
    } else {
      b.Swap(other, arena);
    }
    forall i | 0 <= i < |buffers|
      ensures Member(buffers[i], arena) && buffers[i].handle.Value() == Applied(values, op, [])[i]
    {
      assert old(Member(buffers[i], arena));
    }
    forall o | o in arena.objects ensures Placed(o, mem) { assert old(Placed(o, mem)); }
    assert Values(buffers) == Applied(values, op, []);
  }

  /** The constructors and the destructor, with the memory they may add; other handles are unaffected. */
  method NewWithin(size: nat, capacity: nat, ghost arena: Arena, ghost mem: set<object>)
    returns (b: CopyOnWriteBuffer, ghost after: set<object>)
    requires arena.Valid() && Within(arena, mem)
    modifies arena, arena.objects
    ensures b.Valid(arena) && fresh(b.handle) && arena.handles == old(arena.handles) + {b.handle}
    ensures Within(arena, after) && mem <= after && fresh(after - mem)
    ensures |b.handle.Value()| == size
    ensures forall h :: h in old(arena.handles) ==> h.Value() == old(h.Value())
  {
    forall o | o in arena.objects ensures Placed(o, mem) {}
    b := new CopyOnWriteBuffer(size, capacity, arena);
    ValidIsLive(b, arena);
    after := Grown(b, b.handle.ptr, mem);
    forall o | o in arena.objects ensures Placed(o, after) { assert o != b.handle.ptr ==> old(Placed(o, mem)); }
  }

  method CopyWithin(other: CopyOnWriteBuffer, ghost arena: Arena, ghost mem: set<object>) returns (b: CopyOnWriteBuffer)
    requires other.Valid(arena) && Within(arena, mem)
    modifies arena, arena.objects
    ensures b.Valid(arena) && fresh(b.handle) && arena.handles == old(arena.handles) + {b.handle}
    ensures Within(arena, mem)
    ensures b.handle.Value() == old(other.handle.Value())
    ensures forall h :: h in old(arena.handles) ==> h.Value() == old(h.Value())
  {
    b := new CopyOnWriteBuffer.Copy(other, arena);
    forall o | o in arena.objects ensures Placed(o, mem) { assert old(Placed(o, mem)); }
  }

  method DestroyWithin(b: CopyOnWriteBuffer, ghost arena: Arena, ghost mem: set<object>)
    requires b.Valid(arena) && Within(arena, mem)
    modifies arena`handles, b.handle, arena.objects
    ensures arena.Valid() && Within(arena, mem) && arena.handles == old(arena.handles) - {b.handle}
    ensures forall h :: h in arena.handles ==> h.Value() == old(h.Value())
  {
    b.Destroy(arena);
    forall o | o in arena.objects ensures Placed(o, mem) { assert old(Placed(o, mem)); }
  }

  /** A buffer joins the list: a new one, or a copy. */
  method Construct(buffers: BufferList, op: Op, ghost arena: Arena, ghost mem: set<object>)
    returns (longer: BufferList, ghost after: set<object>, ghost fill: seq<Byte>)
    requires World(buffers, arena) && Within(arena, mem) && Proper(Values(buffers), op) && (op.New? || op.CopyOf?)
    modifies arena, arena.objects
    ensures World(longer, arena) && Within(arena, after) && mem <= after && fresh(after - mem)
    ensures fresh(arena.handles - old(arena.handles))
    ensures Values(longer) == Applied(old(Values(buffers)), op, fill) && Fitting(old(Values(buffers)), op, fill)
  {
    ghost var values := Values(buffers);
    var b: CopyOnWriteBuffer;
    after, fill := mem, [];
    if op.New? {
      b, after := NewWithin(op.size, op.capacity, arena, mem);
      fill := b.handle.Value();
    } else {
      assert Member(buffers[op.j], arena);
      b := CopyWithin(buffers[op.j], arena, mem);
    }
    longer := buffers + [b];
    forall i | 0 <= i < |buffers| ensures Member(buffers[i], arena) && buffers[i].handle.Value() == values[i] {
      assert old(Member(buffers[i], arena));
    }
    assert Values(longer) == values + [b.handle.Value()];
  }

  method Destroy(buffers: BufferList, i: nat, ghost arena: Arena, ghost mem: set<object>) returns (shorter: BufferList)
    requires World(buffers, arena) && Within(arena, mem) && i < |buffers|
    modifies arena`handles, buffers[i].handle, arena.objects
    ensures World(shorter, arena) && Within(arena, mem) && arena.handles <= old(arena.handles)
    ensures Values(shorter) == Applied(old(Values(buffers)), Drop(i), [])
  {
    ghost var values := Values(buffers);
    assert Member(buffers[i], arena);
    DestroyWithin(buffers[i], arena, mem);
    shorter := buffers[..i] + buffers[i + 1..];
    forall k | 0 <= k < |buffers| && k != i
      ensures Member(buffers[k], arena) && buffers[k].handle.Value() == values[k]
    {
      assert old(Member(buffers[k], arena));
    }
    WithoutOne(buffers, i, arena);
    assert Values(buffers)[..i] == values[..i] && Values(buffers)[i + 1..] == values[i + 1..];
  }

  lemma WithoutOne(buffers: BufferList, i: nat, arena: Arena)
    requires arena.Valid() && i < |buffers|
    requires forall k {:trigger buffers[k]} :: 0 <= k < |buffers| && k != i ==> Member(buffers[k], arena)
    requires forall k, j :: 0 <= k < j < |buffers| ==> buffers[k].handle != buffers[j].handle
    ensures var shorter := buffers[..i] + buffers[i + 1..];
            World(shorter, arena) && Values(shorter) == Values(buffers)[..i] + Values(buffers)[i + 1..]
  {
    var shorter := buffers[..i] + buffers[i + 1..];
    forall k | 0 <= k < |shorter| ensures shorter[k] == buffers[if k < i then k else k + 1] {}
  }

  /** Any call, on the buffers as on byte strings; an improper one is left out. */
  method Do(buffers: BufferList, op: Op, ghost arena: Arena, ghost mem: set<object>)
    returns (next: BufferList, ghost after: set<object>, ghost fill: seq<Byte>)
    requires World(buffers, arena) && Within(arena, mem)
    modifies arena, arena.handles, arena.objects, mem
    ensures World(next, arena) && Within(arena, after) && mem <= after && fresh(after - mem)
    ensures fresh(arena.handles - old(arena.handles))
    ensures Values(next) == Applied(old(Values(buffers)), op, fill) && Fitting(old(Values(buffers)), op, fill)
  {
    next, after, fill := buffers, mem, [];
    var proper := CheckProper(buffers, op, arena);
    if !proper {
      return;
    }
    if op.New? || op.CopyOf? {
      next, after, fill := Construct(buffers, op, arena, mem);
      return;
    }
    assert Member(buffers[op.i], arena);
    if op.Drop? {
      next := Destroy(buffers, op.i, arena, mem);
    } else if IsRepoint(op) {
      assert Member(buffers[op.j], arena);
      Repoint(buffers, op, arena, mem);
    } else {
      after, fill := Step(buffers, op, arena, mem);
    }
  }

  method CheckProper(buffers: BufferList, op: Op, ghost arena: Arena) returns (proper: bool)
    requires World(buffers, arena)
    ensures proper == Proper(Values(buffers), op)
  {
    match op {
      case New(_, _) => proper := true;
      case CopyOf(j) => proper := j < |buffers|;
      case AppendBuffer(i, j) => proper := i < |buffers| && j < |buffers| && i != j;
      case Assign(i, j) => proper := i < |buffers| && j < |buffers|;
      case Move(i, j) => proper := i < |buffers| && j < |buffers|;
      case Swap(i, j) => proper := i < |buffers| && j < |buffers|;
      case SetByte(i, index, _) =>
        if i >= |buffers| {
          return false;
        }
        assert Member(buffers[i], arena);
        var size := 0;
        if buffers[i].handle.ptr != null {
          buffers[i].LiveBlock(arena);
          size := buffers[i].handle.ptr.buffer.size;
        }
        proper := index < size;
      case _ => proper := op.i < |buffers|;
    }
  }

  /** Whatever is constructed, copied, moved, swapped, appended, resized, cleared, written and destroyed, in
      whatever order: each buffer reads as its own byte string, untouched by writes through the others. Only
      the bytes that a new or growing buffer exposes are unknown. */
  method RunFromEmpty(ops: seq<Op>) returns (buffers: BufferList, ghost arena: Arena, ghost fills: seq<seq<Byte>>)
    ensures World(buffers, arena)
    ensures |fills| == |ops| && AllFitting([], ops, fills)
    ensures Values(buffers) == Run([], ops, fills)
  {
    arena := new Arena();
    buffers, fills := [], [];
    ghost var mem: set<object> := {};
    for k := 0 to |ops|
      invariant fresh(arena) && fresh(arena.handles) && fresh(mem)
      invariant World(buffers, arena) && Within(arena, mem)
      invariant |fills| == k && AllFitting([], ops[..k], fills)
      invariant Values(buffers) == Run([], ops[..k], fills)
    {
      forall o | o in arena.objects ensures fresh(o) { assert Placed(o, mem); }
      ghost var fill;
      buffers, mem, fill := Do(buffers, ops[k], arena, mem);
      NextPrefix(ops, k, fills, fill);
      fills := fills + [fill];
    }
    assert ops[..|ops|] == ops;
  }
}

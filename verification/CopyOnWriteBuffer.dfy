/** Copy-on-write buffers: byte strings that share one reference-counted block until written. */
module CopyOnWrite {
  import opened Buffers
  import opened ScopedRefptrs

  class CopyOnWriteBuffer {
    /** buffer_ */
    const handle: ScopedRefptr

    ghost predicate Valid(arena: Arena)
      reads arena, arena.handles, arena.objects, set o | o in arena.objects :: o.buffer
    {
      arena.Valid() && handle in arena.handles
    }

    /** The class invariant the source states: null, or a block with some capacity. It is lost by
        exactly one call, an append of nothing to a null buffer. */
    ghost predicate IsConsistent()
      reads handle, if handle.ptr == null then {} else {handle.ptr.buffer}
    {
      handle.ptr != null ==> handle.ptr.buffer.capacity > 0
    }

    /** No other handle's bytes change. */
    twostate predicate OthersKeep(arena: Arena)
      reads arena, arena.handles, set h | h in arena.handles && h.ptr != null :: h.ptr.buffer
      reads set h | h in arena.handles && h.ptr != null && h.ptr.buffer.data != null :: h.ptr.buffer.data
    {
      && arena.handles == old(arena.handles)
      && forall h :: h in arena.handles && h != handle ==> h.ptr == old(h.ptr) && h.Value() == old(h.Value())
    }

    /** Only this handle's block is touched: it moves to new memory, if at all. */
    twostate predicate Local(arena: Arena)
      reads arena, handle, if handle.ptr == null then {} else {handle.ptr.buffer}
      reads set o | o in arena.objects :: o.buffer
    {
      && (arena.objects == old(arena.objects)
          || (handle.ptr != null && fresh(handle.ptr) && arena.objects == old(arena.objects) + {handle.ptr}))
      && fresh(handle.Block() - old(handle.Block()))
      && (old(handle.ptr) != null && old(handle.ptr) in arena.objects ==>
            || old(handle.ptr).buffer.data == old(handle.ptr.buffer.data)
            || old(handle.ptr).buffer.data == null || fresh(old(handle.ptr).buffer.data))
    }

    constructor (size: nat, capacity: nat, ghost arena: Arena)
      requires arena.Valid()
      modifies arena, arena.objects
      ensures Valid(arena) && fresh(handle) && arena.handles == old(arena.handles) + {handle}
      ensures |handle.Value()| == size && IsConsistent()
      ensures handle.ptr == null <==> size == capacity == 0
      ensures handle.ptr == null ==> arena.objects == old(arena.objects)
      ensures handle.ptr != null ==>
                && fresh(handle.ptr) && fresh(handle.Block())
                && arena.objects == old(arena.objects) + {handle.ptr}
      ensures forall h :: h in old(arena.handles) ==> h.ptr == old(h.ptr) && h.Value() == old(h.Value())
    {
      handle := new ScopedRefptr(arena);
      new;
      if size > 0 || capacity > 0 {
        var b := new BufferT<Byte>(size, capacity);
        Replace(b, arena);
      }
    }

    /** The copy constructor shares the block. */
    constructor Copy(other: CopyOnWriteBuffer, ghost arena: Arena)
      requires other.Valid(arena)
      modifies arena, arena.objects
      ensures Valid(arena) && fresh(handle) && arena.handles == old(arena.handles) + {handle}
      ensures handle.Value() == old(other.handle.Value()) && arena.objects == old(arena.objects)
      ensures forall h :: h in old(arena.handles) ==> h.ptr == old(h.ptr) && h.Value() == old(h.Value())
    {
      handle := new ScopedRefptr.Copy(other.handle, arena);
    }

    /** The destructor. */
    method Destroy(ghost arena: Arena)
      requires Valid(arena)
      modifies arena`handles, handle, arena.objects
      ensures arena.Valid() && arena.handles == old(arena.handles) - {handle}
      ensures forall h :: h in arena.handles ==> h.ptr == old(h.ptr) && h.Value() == old(h.Value())
    {
      handle.Destroy(arena);
    }

    /** buffer_ = new RefCountedObject<Buffer>(...) */
    method Replace(b: BufferT<Byte>, ghost arena: Arena)
      requires Valid(arena) && b.IsConsistent()
      requires forall o :: o in arena.objects ==> o.buffer != b && (o.buffer.data != b.data || b.data == null)
      modifies arena`objects, handle, arena.objects
      ensures Valid(arena) && OthersKeep(arena)
      ensures handle.Value() == old(b.Contents()) && handle.ptr != null && handle.ptr.buffer == b
              && handle.ptr.refCount == 1
      ensures fresh(handle.ptr) && arena.objects == old(arena.objects) + {handle.ptr}
    {
      handle.Adopt(b, arena);
    }

    /** With one reference, nobody else's bytes live in this block. */
    lemma Alone(arena: Arena)
      requires Valid(arena) && handle.ptr != null && handle.ptr.HasOneRef()
      ensures handle.ptr in arena.objects && handle.ptr.buffer.IsConsistent()
      ensures forall h :: h in arena.handles && h != handle && h.ptr != null ==>
                && h.ptr.buffer != handle.ptr.buffer
                && (h.ptr.buffer.data != handle.ptr.buffer.data || h.ptr.buffer.data == null)
    {
      OneRefMeansAlone(arena.View(), handle);
      assert arena.BlockOk(handle.ptr);
      forall h | h in arena.handles && h != handle && h.ptr != null
        ensures h.ptr.buffer != handle.ptr.buffer
                && (h.ptr.buffer.data != handle.ptr.buffer.data || h.ptr.buffer.data == null)
      {
        assert HandleOk(arena.View(), h) && arena.View().ptrs[h] == h.ptr;
        assert arena.Apart(h.ptr, handle.ptr);
      }
    }

    /** CloneDataIfReferenced: afterwards the block is this handle's alone, contents unchanged. */
    method CloneDataIfReferenced(newCapacity: nat, ghost arena: Arena)
      requires Valid(arena) && handle.ptr != null && newCapacity >= |handle.Value()|
      modifies arena`objects, handle, arena.objects
      ensures Valid(arena) && OthersKeep(arena) && Local(arena)
      ensures handle.ptr != null && handle.ptr.HasOneRef() && handle.Value() == old(handle.Value())
      ensures handle.ptr == old(handle.ptr) || fresh(handle.Block())
      ensures handle.ptr.buffer.capacity
              == if handle.ptr == old(handle.ptr) then old(handle.ptr.buffer.capacity) else newCapacity
    {
      LiveBlock(arena);
      if handle.ptr.HasOneRef() {
        return;
      }
      var b := NewBlock(handle.ptr.buffer.Contents(), newCapacity);
      Replace(b, arena);
    }

    lemma LiveBlock(arena: Arena)
      requires Valid(arena) && handle.ptr != null
      ensures handle.ptr in arena.objects && handle.ptr.buffer.IsConsistent()
      ensures handle.ptr.buffer.size == |handle.Value()|
    {
      assert HandleOk(arena.View(), handle) && arena.View().ptrs[handle] == handle.ptr;
      assert arena.BlockOk(handle.ptr);
    }

    // Writes to a block that is this handle's alone.

    method SetOwnData(source: seq<Byte>, ghost arena: Arena)
      requires Valid(arena) && handle.ptr != null && handle.ptr.HasOneRef()
      modifies handle.Block()
      ensures Valid(arena) && OthersKeep(arena) && Local(arena)
      ensures handle.Value() == source && handle.ptr.buffer.capacity >= old(handle.ptr.buffer.capacity)
    {
      Alone(arena);
      handle.ptr.buffer.SetData(source);
      arena.BlocksKept(handle.ptr);
    }

    method AppendOwnData(source: seq<Byte>, ghost arena: Arena)
      requires Valid(arena) && handle.ptr != null && handle.ptr.HasOneRef()
      modifies handle.Block()
      ensures Valid(arena) && OthersKeep(arena) && Local(arena)
      ensures handle.Value() == old(handle.Value()) + source
      ensures handle.ptr.buffer.capacity >= old(handle.ptr.buffer.capacity)
    {
      Alone(arena);
      handle.ptr.buffer.AppendData(source);
      arena.BlocksKept(handle.ptr);
    }

    method ResizeOwn(size: nat, ghost arena: Arena)
      requires Valid(arena) && handle.ptr != null && handle.ptr.HasOneRef()
      modifies handle.Block()
      ensures Valid(arena) && OthersKeep(arena) && Local(arena) && Resized(old(handle.Value()), handle.Value(), size)
      ensures handle.ptr.buffer.capacity >= old(handle.ptr.buffer.capacity)
    {
      Alone(arena);
      handle.ptr.buffer.SetSize(size);
      arena.BlocksKept(handle.ptr);
      assert handle.Value() == handle.ptr.buffer.Contents();
    }

    method ReserveOwn(capacity: nat, ghost arena: Arena)
      requires Valid(arena) && handle.ptr != null && handle.ptr.HasOneRef()
      modifies handle.Block()
      ensures Valid(arena) && OthersKeep(arena) && Local(arena) && handle.Value() == old(handle.Value())
      ensures handle.ptr.buffer.capacity == Max(old(handle.ptr.buffer.capacity), capacity)
    {
      Alone(arena);
      handle.ptr.buffer.EnsureCapacity(capacity);
      arena.BlocksKept(handle.ptr);
    }

    method ClearOwn(ghost arena: Arena)
      requires Valid(arena) && handle.ptr != null && handle.ptr.HasOneRef()
      modifies handle.Block()
      ensures Valid(arena) && OthersKeep(arena) && Local(arena) && handle.Value() == []
      ensures handle.ptr.buffer.capacity == old(handle.ptr.buffer.capacity)
    {
      Alone(arena);
      handle.ptr.buffer.Clear();
      arena.BlocksKept(handle.ptr);
    }

    method SetOwnByte(index: nat, value: Byte, ghost arena: Arena)
      requires Valid(arena) && handle.ptr != null && handle.ptr.HasOneRef() && index < |handle.Value()|
      modifies handle.Block()
      ensures Valid(arena) && OthersKeep(arena) && Local(arena) && handle.Value() == old(handle.Value())[index := value]
      ensures handle.ptr.buffer.capacity == old(handle.ptr.buffer.capacity)
    {
      Alone(arena);
      LiveBlock(arena);
      handle.ptr.buffer.Set(index, value);
      arena.BlocksKept(handle.ptr);
    }

    // The public operations.

    method SetData(source: seq<Byte>, ghost arena: Arena)
      requires Valid(arena)
      modifies arena`objects, handle, arena.objects, handle.Block()
      ensures Valid(arena) && OthersKeep(arena) && Local(arena)
      ensures handle.Value() == source
      ensures old(IsConsistent()) ==> IsConsistent()
    {
      if handle.ptr == null {
        if |source| > 0 {
          var b := NewBlock(source, |source|);
          Replace(b, arena);
        }
      } else if !handle.ptr.HasOneRef() {
        var b := NewBlock(source, handle.ptr.buffer.capacity);
        Replace(b, arena);
      } else {
        SetOwnData(source, arena);
      }
    }

    method AppendData(source: seq<Byte>, ghost arena: Arena)
      requires Valid(arena)
      modifies arena`objects, handle, arena.objects, handle.Block()
      ensures Valid(arena) && OthersKeep(arena) && Local(arena)
      ensures handle.Value() == old(handle.Value()) + source
      ensures old(IsConsistent()) ==> (IsConsistent() <==> !(old(handle.ptr) == null && source == []))
    {
      if handle.ptr == null {
        var b := NewBlock(source, |source|);
        Replace(b, arena);
        return;
      }
      LiveBlock(arena);
      CloneDataIfReferenced(Max(handle.ptr.buffer.capacity, handle.ptr.buffer.size + |source|), arena);
      AppendOwnData(source, arena);
    }

    method Assign(other: CopyOnWriteBuffer, ghost arena: Arena)
      requires Valid(arena) && other.Valid(arena)
      modifies handle, arena.objects
      ensures Valid(arena) && OthersKeep(arena)
      ensures handle.Value() == old(other.handle.Value())
      ensures handle.ptr == old(other.handle.ptr)
    {
      if other != this {
        assert HandleOk(arena.View(), other.handle) && arena.View().ptrs[other.handle] == other.handle.ptr;
        handle.AssignRaw(other.handle.ptr, arena);
      }
    }

    /** Appending a buffer passes a pointer to its bytes. That pointer must survive: appending a
        buffer to itself is out if it would move an unshared block. */
    method AppendBuffer(other: CopyOnWriteBuffer, ghost arena: Arena)
      requires Valid(arena) && other.Valid(arena)
      requires other.handle == handle && handle.ptr != null && handle.ptr.HasOneRef() ==>
                 2 * |handle.Value()| <= handle.ptr.buffer.capacity
      modifies arena`objects, handle, arena.objects, handle.Block()
      ensures Valid(arena) && OthersKeep(arena) && Local(arena)
      ensures handle.Value() == old(handle.Value()) + old(other.handle.Value())
    {
      var source := [];
      if other.handle.ptr != null {
        other.LiveBlock(arena);
        source := other.handle.ptr.buffer.Contents();
      }
      AppendData(source, arena);
    }

    method SetSize(size: nat, ghost arena: Arena)
      requires Valid(arena)
      modifies arena`objects, handle, arena.objects, handle.Block()
      ensures Valid(arena) && OthersKeep(arena) && Local(arena) && Resized(old(handle.Value()), handle.Value(), size)
      ensures old(IsConsistent()) ==> IsConsistent()
    {
      if handle.ptr == null {
        if size > 0 {
          var b := new BufferT<Byte>(size, size);
          Replace(b, arena);
        }
        return;
      }
      CloneFront(size, arena);
      ResizeOwn(size, arena);
    }

    /** Afterwards the block is this handle's alone, and holds what a resize will keep. */
    method CloneFront(size: nat, ghost arena: Arena)
      requires Valid(arena) && handle.ptr != null
      modifies arena`objects, handle, arena.objects
      ensures Valid(arena) && OthersKeep(arena) && Local(arena)
      ensures handle.ptr != null && handle.ptr.HasOneRef()
      ensures handle.Value() == old(handle.Value())
              || handle.Value() == old(handle.Value())[..Min(|old(handle.Value())|, size)]
      ensures old(IsConsistent()) ==> IsConsistent()
    {
      LiveBlock(arena);
      if !handle.ptr.HasOneRef() {
        var kept := handle.ptr.buffer.Contents()[..Min(handle.ptr.buffer.size, size)];
        var b := NewBlock(kept, Max(handle.ptr.buffer.capacity, size));
        Replace(b, arena);
      }
    }

    method EnsureCapacity(capacity: nat, ghost arena: Arena)
      requires Valid(arena)
      modifies arena`objects, handle, arena.objects, handle.Block()
      ensures Valid(arena) && OthersKeep(arena) && Local(arena) && handle.Value() == old(handle.Value())
      ensures capacity > 0 ==> handle.ptr != null && handle.ptr.buffer.capacity >= capacity
      ensures old(IsConsistent()) ==> IsConsistent()
    {
      if handle.ptr == null {
        if capacity > 0 {
          var b := NewBlock([], capacity);
          Replace(b, arena);
        }
        return;
      } else if capacity <= handle.ptr.buffer.capacity {
        return;
      }
      LiveBlock(arena);
      CloneDataIfReferenced(Max(handle.ptr.buffer.capacity, capacity), arena);
      ReserveOwn(capacity, arena);
    }

    method Clear(ghost arena: Arena)
      requires Valid(arena)
      modifies arena`objects, handle, arena.objects, handle.Block()
      ensures Valid(arena) && OthersKeep(arena) && Local(arena) && handle.Value() == []
      ensures old(IsConsistent()) ==> IsConsistent()
    {
      if handle.ptr == null {
        return;
      }
      if handle.ptr.HasOneRef() {
        ClearOwn(arena);
      } else {
        var b := NewBlock([], handle.ptr.buffer.capacity);
        Replace(b, arena);
      }
    }

    /** operator[] on the mutable buffer, assigned to. */
    method Set(index: nat, value: Byte, ghost arena: Arena)
      requires Valid(arena) && index < |handle.Value()|
      modifies arena`objects, handle, arena.objects, handle.Block()
      ensures Valid(arena) && OthersKeep(arena) && Local(arena) && handle.Value() == old(handle.Value())[index := value]
      ensures old(IsConsistent()) ==> IsConsistent()
    {
      LiveBlock(arena);
      CloneDataIfReferenced(handle.ptr.buffer.capacity, arena);
      SetOwnByte(index, value, arena);
    }

    /** Move assignment: the source is left empty, unless it is this buffer itself. */
    method MoveAssign(other: CopyOnWriteBuffer, ghost arena: Arena)
      requires Valid(arena) && other.Valid(arena)
      modifies arena`handles, handle, other.handle, arena.objects
      ensures Valid(arena) && arena.handles == old(arena.handles)
      ensures handle.Value() == old(other.handle.Value())
      ensures other.handle != handle ==> other.handle.Value() == []
      ensures forall h :: h in arena.handles && h != handle && h != other.handle ==>
                h.ptr == old(h.ptr) && h.Value() == old(h.Value())
    {
      handle.MoveAssign(other.handle, arena);
      assert arena.View().ptrs[handle] == handle.ptr && arena.View().ptrs[other.handle] == other.handle.ptr;
    }

    /** The two buffers change places. */
    method Swap(other: CopyOnWriteBuffer, ghost arena: Arena)
      requires Valid(arena) && other.Valid(arena)
      modifies handle, other.handle
      ensures Valid(arena)
      ensures handle.Value() == old(other.handle.Value()) && other.handle.Value() == old(handle.Value())
      ensures forall h :: h in arena.handles && h != handle && h != other.handle ==>
                h.ptr == old(h.ptr) && h.Value() == old(h.Value())
    {
      handle.Swap(other.handle, arena);
      assert arena.View().ptrs[handle] == handle.ptr && arena.View().ptrs[other.handle] == other.handle.ptr;
    }

    /** operator==: the same block, or two blocks with equal bytes. A null buffer thus differs from
        an empty block. */
    method Equals(other: CopyOnWriteBuffer, ghost arena: Arena) returns (equal: bool)
      requires Valid(arena) && other.Valid(arena)
      ensures equal <==> handle.Value() == other.handle.Value() && (handle.ptr == null <==> other.handle.ptr == null)
    {
      if handle.ptr == other.handle.ptr {
        return true;
      }
      if handle.ptr == null || other.handle.ptr == null {
        return false;
      }
      LiveBlock(arena);
      other.LiveBlock(arena);
      equal := handle.ptr.buffer.Contents() == other.handle.ptr.buffer.Contents();
    }
  }

  /** A resize keeps the common part and leaves new bytes unspecified. */
  ghost predicate Resized(before: seq<Byte>, after: seq<Byte>, size: nat) {
    |after| == size && after[..Min(|before|, size)] == before[..Min(|before|, size)]
  }

  function Min(a: nat, b: nat): nat { if a < b then a else b }

  /** new RefCountedObject<Buffer>(data, size, capacity), less the counter. */
  method NewBlock(source: seq<Byte>, capacity: nat) returns (b: BufferT<Byte>)
    ensures fresh(b) && b.IsConsistent() && b.Contents() == source
    ensures b.capacity == if capacity > |source| then capacity else |source|
    ensures b.data != null ==> fresh(b.data)
  {
    b := new BufferT<Byte>(|source|, capacity);
    b.SetData(source);
  }
}

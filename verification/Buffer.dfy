/** BufferT: a growable buffer over one heap block, and what its growth policy buys. */
module Buffers {

  newtype Byte = x: int | 0 <= x < 256

  class BufferT<T(0)> {
    var size: nat
    var capacity: nat
    var data: array?<T>

    /** Elements copied by reallocation so far, and the largest size requested so far. */
    ghost var copied: nat
    ghost var largest: nat

    ghost predicate IsConsistent()
      reads this
    {
      && size <= capacity
      && (data == null <==> capacity == 0)
      && (data != null ==> data.Length == capacity)
    }

    function Contents(): (s: seq<T>)
      requires IsConsistent()
      reads this, data
      ensures |s| == size
    {
      if data == null then [] else data[..size]
    }

    /** The contents, as a total function. */
    ghost function Value(): seq<T>
      reads this, data
    {
      if IsConsistent() then Contents() else []
    }

    /** The cost of growth is paid for by the capacity reached, and the capacity by the sizes asked. */
    ghost predicate Amortized()
      reads this
    {
      copied <= 3 * capacity && 2 * capacity <= 3 * largest && size <= largest
    }

    constructor (size: nat, capacity: nat)
      ensures IsConsistent() && this.size == size && this.capacity == (if capacity > size then capacity else size)
      ensures data != null ==> fresh(data)
      ensures copied == 0 && largest == size
      ensures capacity <= size ==> Amortized()
    {
      var c := if capacity > size then capacity else size;
      this.size, this.capacity := size, c;
      if c > 0 {
        data := new T[c];
      } else {
        data := null;
      }
      copied, largest := 0, size;
    }

    method EnsureCapacityWithHeadroom(capacity: nat, extraHeadroom: bool)
      requires IsConsistent()
      modifies this`capacity, this`data, this`copied
      ensures IsConsistent() && Contents() == old(Contents())
      ensures this.capacity >= capacity
      ensures capacity <= old(this.capacity) ==>
                this.capacity == old(this.capacity) && data == old(data) && copied == old(copied)
      ensures capacity > old(this.capacity) ==>
                && fresh(data) && copied == old(copied) + size
                && this.capacity
                   == if extraHeadroom then Max(capacity, old(this.capacity) + old(this.capacity) / 2) else capacity
    {
      if capacity <= this.capacity {
        return;
      }
      var newCapacity := if extraHeadroom then Max(capacity, this.capacity + this.capacity / 2) else capacity;
      var newData := new T[newCapacity];
      if data != null {
        forall i | 0 <= i < size {
          newData[i] := data[i];
        }
      }
      copied := copied + size;
      data := newData;
      this.capacity := newCapacity;
    }

    method AppendData(source: seq<T>)
      requires IsConsistent()
      modifies this, data
      ensures IsConsistent() && Contents() == old(Contents()) + source
      ensures data == old(data) || fresh(data)
      ensures old(Amortized()) ==> Amortized()
      ensures largest == Max(old(largest), size)
      ensures copied == if size <= old(capacity) then old(copied) else old(copied) + old(size)
      ensures capacity == if size <= old(capacity) then old(capacity) else Max(size, old(capacity) + old(capacity) / 2)
    {
      var newSize := size + |source|;
      EnsureCapacityWithHeadroom(newSize, true);
      ghost var before := Contents();
      if data != null {
        forall i | 0 <= i < |source| {
          data[size + i] := source[i];
        }
      }
      size := newSize;
      largest := Max(largest, newSize);
      assert Contents() == before + source;
    }

    /** The setter form: room for maxElements is reserved, and the setter fills the front of it. */
    method AppendFromSetter(maxElements: nat, written: seq<T>)
      requires IsConsistent() && |written| <= maxElements
      modifies this, data
      ensures IsConsistent() && Contents() == old(Contents()) + written
      ensures data == old(data) || fresh(data)
      ensures old(Amortized()) ==> Amortized()
    {
      var oldSize := size;
      ghost var before := Contents();
      SetSize(oldSize + maxElements);
      assert Contents()[..oldSize] == before;
      if data != null {
        forall i | 0 <= i < |written| {
          data[oldSize + i] := written[i];
        }
      }
      size := oldSize + |written|;
      assert Contents() == before + written;
    }

    method SetData(source: seq<T>)
      requires IsConsistent()
      modifies this, data
      ensures IsConsistent() && Contents() == source
      ensures data == old(data) || fresh(data)
      ensures old(Amortized()) ==> Amortized()
      ensures copied == old(copied) && largest == Max(old(largest), |source|)
      ensures capacity >= old(capacity) && (|source| <= old(capacity) ==> capacity == old(capacity))
    {
      size := 0;
      AppendData(source);
    }

    /** Shrinking truncates; growing keeps the contents and leaves the new space unspecified. */
    method SetSize(size: nat)
      requires IsConsistent()
      modifies this, data
      ensures IsConsistent() && this.size == size
      ensures size <= old(this.size) ==> Contents() == old(Contents())[..size]
      ensures old(this.size) <= size ==> Contents()[..old(this.size)] == old(Contents())
      ensures data == old(data) || fresh(data)
      ensures old(Amortized()) ==> Amortized()
      ensures largest == Max(old(largest), size)
      ensures copied == if size <= old(capacity) then old(copied) else old(copied) + old(this.size)
      ensures capacity == if size <= old(capacity) then old(capacity) else Max(size, old(capacity) + old(capacity) / 2)
    {
      EnsureCapacityWithHeadroom(size, true);
      this.size := size;
      largest := Max(largest, size);
    }

    method EnsureCapacity(capacity: nat)
      requires IsConsistent()
      modifies this`capacity, this`data, this`copied
      ensures IsConsistent() && Contents() == old(Contents())
      ensures this.capacity == Max(old(this.capacity), capacity)
      ensures data == old(data) || fresh(data)
      ensures copied == if capacity <= old(this.capacity) then old(copied) else old(copied) + size
    {
      EnsureCapacityWithHeadroom(capacity, false);
    }

    method Clear()
      requires IsConsistent()
      modifies this`size
      ensures IsConsistent() && Contents() == []
      ensures old(Amortized()) ==> Amortized()
    {
      size := 0;
    }

    method Set(index: nat, value: T)
      requires IsConsistent() && index < size
      modifies data
      ensures Contents() == old(Contents())[index := value]
    {
      data[index] := value;
    }
  }

  // ---- Runs ----

  datatype Op<T> = Append(source: seq<T>) | Overwrite(source: seq<T>) | Resize(size: nat)

  /** The size a call asks for, given the one before it. */
  function Asked<T>(size: nat, op: Op<T>): nat {
    match op
    case Append(source) => size + |source|
    case Overwrite(source) => |source|
    case Resize(n) => n
  }

  /** The largest size a run asks for. */
  function Peak<T>(size: nat, ops: seq<Op<T>>): (peak: nat)
    ensures peak >= size
    decreases |ops|
  {
    if ops == [] then size else Max(size, Peak(Asked(size, ops[0]), ops[1..]))
  }

  /** Over any run from the empty buffer: the elements copied by reallocation are at most three times
      the capacity, and the capacity at most 1.5 times the largest size asked for. */
  method RunFromEmpty<T(0)>(ops: seq<Op<T>>) returns (buffer: BufferT<T>)
    ensures fresh(buffer) && buffer.IsConsistent()
    ensures buffer.copied <= 3 * buffer.capacity && 2 * buffer.capacity <= 3 * Peak(0, ops)
  {
    buffer := new BufferT(0, 0);
    for i := 0 to |ops|
      invariant fresh(buffer) && (buffer.data != null ==> fresh(buffer.data))
      invariant buffer.IsConsistent() && buffer.Amortized()
      invariant Max(buffer.largest, Peak(buffer.size, ops[i..])) == Peak(0, ops)
    {
      assert ops[i..][0] == ops[i] && ops[i..][1..] == ops[i + 1..];
      Do(buffer, ops[i]);
    }
  }

  method Do<T(0)>(buffer: BufferT<T>, op: Op<T>)
    requires buffer.IsConsistent() && buffer.Amortized()
    modifies buffer, buffer.data
    ensures buffer.IsConsistent() && buffer.Amortized()
    ensures buffer.data == old(buffer.data) || fresh(buffer.data)
    ensures buffer.size == Asked(old(buffer.size), op) && buffer.largest == Max(old(buffer.largest), buffer.size)
  {
    match op {
      case Append(source) => buffer.AppendData(source);
      case Overwrite(source) => buffer.SetData(source);
      case Resize(n) => buffer.SetSize(n);
    }
  }

  /** 0 + 1 + ... + (n - 1) */
  function Triangle(n: nat): nat { if n == 0 then 0 else Triangle(n - 1) + n - 1 }

  lemma {:induction false} TriangleIsQuadratic(n: nat)
    ensures 2 * Triangle(n) == n * (n - 1)
    ensures n >= 8 ==> Triangle(n) > 3 * n
  {
    if n > 0 {
      TriangleIsQuadratic(n - 1);
      assert n * (n - 1) == (n - 1) * (n - 2) + 2 * (n - 1);
      if n == 8 { assert Triangle(7) == 21; }
    }
  }

  /** Without the headroom, growing one element at a time copies quadratically often: the bound of
      Amortized needs the 1.5 of the growth policy. */
  method GrowExactly<T(0)>(n: nat) returns (buffer: BufferT<T>)
    ensures fresh(buffer) && buffer.IsConsistent() && buffer.size == n
    ensures buffer.copied == Triangle(n)
    ensures n >= 8 ==> !buffer.Amortized()
  {
    buffer := new BufferT(0, 0);
    for i := 0 to n
      invariant fresh(buffer) && (buffer.data != null ==> fresh(buffer.data))
      invariant buffer.IsConsistent() && buffer.size == buffer.capacity == i
      invariant buffer.copied == Triangle(i)
    {
      buffer.EnsureCapacity(i + 1);
      buffer.SetSize(i + 1);
    }
    TriangleIsQuadratic(n);
  }

  function Max(a: nat, b: nat): nat { if a > b then a else b }
}

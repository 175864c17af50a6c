/** Intrusive reference counts: counted objects, the handles that hold them, and who deletes whom. */
module ScopedRefptrs {
  import opened Buffers

  // ----- Handles and counts as values -----

  /** The counter of an object; held and deleted are history. */
  datatype Count = Count(refs: int, held: bool, deleted: bool)

  /** What every handle points to, and the counters of all objects ever created. */
  datatype Refs = Refs(ptrs: map<ScopedRefptr, RefCountedBuffer?>, counts: map<RefCountedBuffer, Count>)

  ghost function Holders(s: Refs, o: RefCountedBuffer): set<ScopedRefptr> {
    set h | h in s.ptrs && s.ptrs[h] == o
  }

  /** A handle is null or holds an object that has not been deleted. */
  ghost predicate HandleOk(s: Refs, h: ScopedRefptr)
    requires h in s.ptrs
  {
    s.ptrs[h] != null ==> s.ptrs[h] in s.counts && !s.counts[s.ptrs[h]].deleted
  }

  /** An object counts its handles, and is deleted exactly when the last one has left. */
  ghost predicate CountOk(s: Refs, o: RefCountedBuffer)
    requires o in s.counts
  {
    var c := s.counts[o];
    c.refs == |Holders(s, o)| && (c.deleted <==> c.held && c.refs == 0) && (c.refs > 0 ==> c.held)
  }

  ghost predicate RefsOk(s: Refs) {
    && (forall h {:trigger HandleOk(s, h)} :: h in s.ptrs ==> HandleOk(s, h))
    && (forall o {:trigger CountOk(s, o)} :: o in s.counts ==> CountOk(s, o))
  }

  ghost function AddRefed(s: Refs, p: RefCountedBuffer?): Refs
    requires p != null ==> p in s.counts
  {
    if p == null then s else s.(counts := s.counts[p := Count(s.counts[p].refs + 1, true, s.counts[p].deleted)])
  }

  ghost function Released(s: Refs, p: RefCountedBuffer?): Refs
    requires p != null ==> p in s.counts
  {
    if p == null then s else
    var c := s.counts[p];
    s.(counts := s.counts[p := Count(c.refs - 1, c.held, c.deleted || c.refs == 1)])
  }

  /** Assignment of a pointer to a handle. */
  ghost function Assigned(s: Refs, h: ScopedRefptr, p: RefCountedBuffer?): Refs
    requires h in s.ptrs
    requires p != null ==> p in s.counts
    requires s.ptrs[h] != null ==> s.ptrs[h] in s.counts
  {
    var t := Released(AddRefed(s, p), s.ptrs[h]);
    t.(ptrs := t.ptrs[h := p])
  }

  /** Move assignment: the source lets go without a count changing; a self-move changes nothing. */
  ghost function MoveAssigned(s: Refs, h: ScopedRefptr, r: ScopedRefptr): Refs
    requires h in s.ptrs && r in s.ptrs
    requires s.ptrs[h] != null ==> s.ptrs[h] in s.counts
  {
    if h == r then s else
    Repointed(Released(s, s.ptrs[h]), h, s.ptrs[r], r, null)
  }

  /** The temporary of the move assignment takes from r, swaps with h, and releases. */
  lemma MoveAssignSteps(s: Refs, h: ScopedRefptr, r: ScopedRefptr, temp: ScopedRefptr)
    requires h in s.ptrs && r in s.ptrs && temp !in s.ptrs
    requires s.ptrs[h] != null ==> s.ptrs[h] in s.counts
    ensures var s1 := s.(ptrs := s.ptrs[temp := null]);
            var s2 := Repointed(s1, temp, s1.ptrs[r], r, null);
            var s3 := Repointed(s2, temp, s2.ptrs[h], h, s2.ptrs[temp]);
            && (s3.ptrs[temp] != null ==> s3.ptrs[temp] in s3.counts)
            && Released(s3, s3.ptrs[temp]).(ptrs := s3.ptrs - {temp}) == MoveAssigned(s, h, r)
  {
    var s1 := s.(ptrs := s.ptrs[temp := null]);
    var s2 := Repointed(s1, temp, s1.ptrs[r], r, null);
    var s3 := Repointed(s2, temp, s2.ptrs[h], h, s2.ptrs[temp]);
    var after := if h == r then s.ptrs else s.ptrs[h := s.ptrs[r]][r := null];
    assert s3.ptrs[temp] == if h == r then null else s.ptrs[h];
    assert s3.ptrs - {temp} == after;
  }

  /** Two handles are given new pointers. */
  ghost function Repointed(s: Refs, a: ScopedRefptr, p: RefCountedBuffer?, b: ScopedRefptr,
      q: RefCountedBuffer?): Refs {
    s.(ptrs := s.ptrs[a := p][b := q])
  }

  lemma HoldersAfter(s: Refs, h: ScopedRefptr, p: RefCountedBuffer?, o: RefCountedBuffer)
    requires h in s.ptrs
    ensures Holders(s.(ptrs := s.ptrs[h := p]), o) == if p == o then Holders(s, o) + {h} else Holders(s, o) - {h}
  {}

  /** Assignment keeps counts exact and never deletes what a handle still holds, also when the
      handle is assigned the object it already holds. */
  lemma AssignedKeeps(s: Refs, h: ScopedRefptr, p: RefCountedBuffer?)
    requires RefsOk(s) && h in s.ptrs
    requires p != null ==> p in s.counts && !s.counts[p].deleted
    ensures HandleOk(s, h) && RefsOk(Assigned(s, h, p))
  {
    assert HandleOk(s, h);
    var t := Assigned(s, h, p);
    forall o | o in t.counts ensures CountOk(t, o) {
      assert CountOk(s, o);
      HoldersAfter(s, h, p, o);
      assert Holders(t, o) == Holders(s.(ptrs := s.ptrs[h := p]), o);
    }
    forall g | g in t.ptrs ensures HandleOk(t, g) {
      assert HandleOk(s, g);
      if t.ptrs[g] != null {
        assert CountOk(t, t.ptrs[g]) && g in Holders(t, t.ptrs[g]);
      }
    }
  }

  /** A new null handle, and the end of a handle that has let go. */
  lemma HandleSetKeeps(s: Refs, h: ScopedRefptr)
    requires RefsOk(s)
    ensures h !in s.ptrs ==> RefsOk(s.(ptrs := s.ptrs[h := null]))
    ensures h in s.ptrs && s.ptrs[h] == null ==> RefsOk(s.(ptrs := s.ptrs - {h}))
  {
    if h !in s.ptrs {
      var t := s.(ptrs := s.ptrs[h := null]);
      forall o | o in t.counts ensures CountOk(t, o) { assert CountOk(s, o) && Holders(t, o) == Holders(s, o); }
      forall g | g in t.ptrs ensures HandleOk(t, g) { if g != h { assert HandleOk(s, g); } }
    } else if s.ptrs[h] == null {
      var t := s.(ptrs := s.ptrs - {h});
      forall o | o in t.counts ensures CountOk(t, o) { assert CountOk(s, o) && Holders(t, o) == Holders(s, o); }
      forall g | g in t.ptrs ensures HandleOk(t, g) { assert HandleOk(s, g); }
    }
  }

  lemma DestroyedKeeps(s: Refs, h: ScopedRefptr)
    requires RefsOk(s) && h in s.ptrs
    ensures HandleOk(s, h) && RefsOk(Released(s, s.ptrs[h]).(ptrs := s.ptrs - {h}))
  {
    AssignedKeeps(s, h, null);
    var t := Assigned(s, h, null);
    HandleSetKeeps(t, h);
    assert t.ptrs - {h} == s.ptrs - {h};
  }

  /** release() into another handle: the reference changes hands without touching the count. */
  lemma TransferKeeps(s: Refs, from: ScopedRefptr, to: ScopedRefptr)
    requires RefsOk(s) && from in s.ptrs && to in s.ptrs && from != to && s.ptrs[to] == null
    ensures RefsOk(Repointed(s, to, s.ptrs[from], from, null))
  {
    var p := s.ptrs[from];
    var r := s.(ptrs := s.ptrs[to := p]);
    var t := r.(ptrs := r.ptrs[from := null]);
    assert HandleOk(s, from);
    forall o | o in t.counts ensures CountOk(t, o) {
      assert CountOk(s, o);
      HoldersAfter(s, to, p, o);
      HoldersAfter(r, from, null, o);
    }
    forall g | g in t.ptrs ensures HandleOk(t, g) { assert HandleOk(s, g); }
  }

  lemma SwapKeeps(s: Refs, a: ScopedRefptr, b: ScopedRefptr)
    requires RefsOk(s) && a in s.ptrs && b in s.ptrs
    ensures RefsOk(Repointed(s, a, s.ptrs[b], b, s.ptrs[a]))
  {
    var p, q := s.ptrs[a], s.ptrs[b];
    var r := s.(ptrs := s.ptrs[a := q]);
    var t := r.(ptrs := r.ptrs[b := p]);
    assert HandleOk(s, a) && HandleOk(s, b);
    forall o | o in t.counts ensures CountOk(t, o) {
      assert CountOk(s, o);
      HoldersAfter(s, a, q, o);
      HoldersAfter(r, b, p, o);
    }
    forall g | g in t.ptrs ensures HandleOk(t, g) { assert HandleOk(s, g); }
  }

  /** A new object, not held yet. */
  lemma NewObjectKeeps(s: Refs, o: RefCountedBuffer)
    requires RefsOk(s) && o !in s.counts
    ensures RefsOk(s.(counts := s.counts[o := Count(0, false, false)]))
  {
    var t := s.(counts := s.counts[o := Count(0, false, false)]);
    forall g | g in t.ptrs ensures HandleOk(t, g) { assert HandleOk(s, g); }
    forall p | p in t.counts ensures CountOk(t, p) {
      assert Holders(t, p) == Holders(s, p);
      if p != o { assert CountOk(s, p); } else {
        forall h | h in s.ptrs ensures h !in Holders(s, o) { assert HandleOk(s, h); }
      }
    }
  }

  /** A held object is deleted exactly when no handle is left, and no handle sees a deleted one. */
  lemma DeletedIffUnheld(s: Refs, o: RefCountedBuffer)
    requires RefsOk(s) && o in s.counts && s.counts[o].held
    ensures s.counts[o].deleted <==> forall h :: h in s.ptrs ==> s.ptrs[h] != o
  {
    assert CountOk(s, o);
    if forall h :: h in s.ptrs ==> s.ptrs[h] != o {
      assert Holders(s, o) == {};
    }
    forall h | h in s.ptrs && s.ptrs[h] == o ensures !s.counts[o].deleted {
      assert h in Holders(s, o);
    }
  }

  /** HasOneRef means what copy-on-write needs: no other handle holds the object. */
  lemma OneRefMeansAlone(s: Refs, h: ScopedRefptr)
    requires RefsOk(s) && h in s.ptrs && s.ptrs[h] != null
    ensures s.ptrs[h] in s.counts
    ensures s.counts[s.ptrs[h]].refs == 1 <==> forall g :: g in s.ptrs && g != h ==> s.ptrs[g] != s.ptrs[h]
  {
    var o := s.ptrs[h];
    assert HandleOk(s, h) && CountOk(s, o);
    var holders := Holders(s, o);
    assert h in holders;
    if |holders| == 1 {
      assert |holders - {h}| == 0;
      forall g | g in s.ptrs && g != h ensures s.ptrs[g] != o { assert g !in holders - {h}; }
    }
    if forall g :: g in s.ptrs && g != h ==> s.ptrs[g] != o {
      assert holders == {h};
    }
  }

  // ----- Runs -----

  /** Copy and Take construct a handle from another one, by copy and by move. */
  datatype Op =
    | NewHandle(h: ScopedRefptr)
    | NewObject(o: RefCountedBuffer)
    | Copy(h: ScopedRefptr, r: ScopedRefptr)
    | Take(h: ScopedRefptr, r: ScopedRefptr)
    | Assign(h: ScopedRefptr, p: RefCountedBuffer?)
    | AssignFrom(h: ScopedRefptr, r: ScopedRefptr)
    | MoveAssign(h: ScopedRefptr, r: ScopedRefptr)
    | Swap(h: ScopedRefptr, r: ScopedRefptr)
    | Destroy(h: ScopedRefptr)

  /** New handles and objects are new, all others are alive. */
  ghost predicate Proper(s: Refs, op: Op) {
    match op
    case NewHandle(h) => h !in s.ptrs
    case NewObject(o) => o !in s.counts
    case Copy(h, r) => h !in s.ptrs && r in s.ptrs
    case Take(h, r) => h !in s.ptrs && r in s.ptrs
    case Assign(h, p) => h in s.ptrs && (p != null ==> p in s.counts && !s.counts[p].deleted)
    case Destroy(h) => h in s.ptrs
    case _ => op.h in s.ptrs && op.r in s.ptrs
  }

  ghost function WithHandle(s: Refs, h: ScopedRefptr): Refs {
    s.(ptrs := s.ptrs[h := null])
  }

  /** The effect of an operation; an improper one is left out. */
  ghost function Stepped(s: Refs, op: Op): (t: Refs)
    requires RefsOk(s)
    ensures RefsOk(t)
  {
    if !Proper(s, op) then s
    else
      match op
      case NewHandle(h) => HandleSetKeeps(s, h); WithHandle(s, h)
      case NewObject(o) => NewObjectKeeps(s, o); s.(counts := s.counts[o := Count(0, false, false)])
      case Copy(h, r) => CopyKeeps(s, h, r); Assigned(WithHandle(s, h), h, s.ptrs[r])
      case Take(h, r) => TakeKeeps(s, h, r); Repointed(s, h, s.ptrs[r], r, null)
      case Assign(h, p) => AssignedKeeps(s, h, p); Assigned(s, h, p)
      case AssignFrom(h, r) => assert HandleOk(s, r); AssignedKeeps(s, h, s.ptrs[r]); Assigned(s, h, s.ptrs[r])
      case MoveAssign(h, r) => MoveKeeps(s, h, r); MoveAssigned(s, h, r)
      case Swap(h, r) => SwapKeeps(s, h, r); Repointed(s, h, s.ptrs[r], r, s.ptrs[h])
      case Destroy(h) => DestroyedKeeps(s, h); Released(s, s.ptrs[h]).(ptrs := s.ptrs - {h})
  }

  lemma CopyKeeps(s: Refs, h: ScopedRefptr, r: ScopedRefptr)
    requires RefsOk(s) && h !in s.ptrs && r in s.ptrs
    ensures s.ptrs[r] != null ==> s.ptrs[r] in s.counts
    ensures RefsOk(Assigned(WithHandle(s, h), h, s.ptrs[r]))
  {
    assert HandleOk(s, r);
    HandleSetKeeps(s, h);
    AssignedKeeps(WithHandle(s, h), h, s.ptrs[r]);
  }

  lemma TakeKeeps(s: Refs, h: ScopedRefptr, r: ScopedRefptr)
    requires RefsOk(s) && h !in s.ptrs && r in s.ptrs
    ensures RefsOk(Repointed(s, h, s.ptrs[r], r, null))
  {
    HandleSetKeeps(s, h);
    TransferKeeps(WithHandle(s, h), r, h);
    assert WithHandle(s, h).ptrs[h := s.ptrs[r]] == s.ptrs[h := s.ptrs[r]];
  }

  /** The old object is let go, then the pointer moves. */
  lemma MoveKeeps(s: Refs, h: ScopedRefptr, r: ScopedRefptr)
    requires RefsOk(s) && h in s.ptrs && r in s.ptrs
    ensures HandleOk(s, h) && RefsOk(MoveAssigned(s, h, r))
  {
    assert HandleOk(s, h);
    if h != r {
      var t := Assigned(s, h, null);
      AssignedKeeps(s, h, null);
      TransferKeeps(t, r, h);
      assert t.ptrs[h := t.ptrs[r]] == s.ptrs[h := s.ptrs[r]];
    }
  }

  ghost function Run(s: Refs, ops: seq<Op>): (t: Refs)
    requires RefsOk(s)
    ensures RefsOk(t)
    decreases |ops|
  {
    if ops == [] then s else Run(Stepped(s, ops[0]), ops[1..])
  }

  const NO_REFS := Refs(map[], map[])

  /** From nothing, whatever is created, copied, moved, swapped, assigned and destroyed: an object is deleted
      if and only if it was held and no handle is left, its count is the number of handles that hold it, and
      no handle points to a deleted object. */
  lemma RunFromNothing(ops: seq<Op>, o: RefCountedBuffer, h: ScopedRefptr)
    ensures RefsOk(NO_REFS)
    ensures var t := Run(NO_REFS, ops);
            && (o in t.counts ==>
                  && t.counts[o].refs == |Holders(t, o)|
                  && (t.counts[o].deleted <==> t.counts[o].held && forall g :: g in t.ptrs ==> t.ptrs[g] != o))
            && (h in t.ptrs && t.ptrs[h] != null ==> t.ptrs[h] in t.counts && !t.counts[t.ptrs[h]].deleted)
  {
    var t := Run(NO_REFS, ops);
    if o in t.counts {
      assert CountOk(t, o);
      if t.counts[o].held { DeletedIffUnheld(t, o); }
    }
    assert h in t.ptrs ==> HandleOk(t, h);
  }

  /** What was held stays on record, and what is deleted stays deleted: no object is deleted twice or revived. */
  ghost predicate Remembers(s: Refs, t: Refs) {
    forall o :: o in s.counts ==>
      && o in t.counts && (s.counts[o].held ==> t.counts[o].held)
      && (s.counts[o].deleted ==> t.counts[o] == s.counts[o])
  }

  lemma {:induction false} DeletedForGood(s: Refs, ops: seq<Op>)
    requires RefsOk(s)
    ensures Remembers(s, Run(s, ops))
    decreases |ops|
  {
    if ops != [] {
      StepRemembers(s, ops[0]);
      DeletedForGood(Stepped(s, ops[0]), ops[1..]);
    }
  }

  /** Only objects that some handle holds are released, and only live ones are referenced. */
  lemma StepRemembers(s: Refs, op: Op)
    requires RefsOk(s)
    ensures Remembers(s, Stepped(s, op))
  {
    if Proper(s, op) && !op.NewObject? && !op.NewHandle? {
      assert op.h in s.ptrs ==> HandleOk(s, op.h);
      assert !op.Assign? && !op.Destroy? ==> HandleOk(s, op.r);
    }
  }

  // ----- The classes -----

  /** RefCountedObject<Buffer>. */
  class RefCountedBuffer {
    const buffer: BufferT<Byte>
    var refCount: int
    ghost var held: bool
    ghost var deleted: bool

    constructor (buffer: BufferT<Byte>)
      ensures this.buffer == buffer && Counter() == Count(0, false, false)
    {
      this.buffer, refCount := buffer, 0;
      held, deleted := false, false;
    }

    ghost function Counter(): Count
      reads this
    {
      Count(refCount, held, deleted)
    }

    method AddRef()
      modifies this
      ensures Counter() == Count(old(refCount) + 1, true, old(deleted))
    {
      refCount := refCount + 1;
      held := true;
    }

    /** Deletes the object when the last reference goes. */
    method Release()
      modifies this
      ensures Counter() == Count(old(refCount) - 1, old(held), old(deleted) || old(refCount) == 1)
    {
      refCount := refCount - 1;
      if refCount == 0 {
        deleted := true;
      }
    }

    predicate HasOneRef()
      reads this
    {
      refCount == 1
    }
  }

  /** Bookkeeping of the proof only: the handles alive and the objects ever created. */
  class Arena {
    ghost var handles: set<ScopedRefptr>
    ghost var objects: set<RefCountedBuffer>

    ghost constructor ()
      ensures handles == {} && objects == {} && Valid()
    {
      handles, objects := {}, {};
    }

    ghost method Enroll(h: ScopedRefptr)
      requires RefsOk(View()) && h !in handles && h.ptr == null
      modifies this`handles
      ensures handles == old(handles) + {h}
      ensures View() == old(View()).(ptrs := old(View()).ptrs[h := null])
      ensures RefsOk(View())
      ensures old(BlocksOk()) ==> BlocksOk()
    {
      HandleSetKeeps(View(), h);
      handles := handles + {h};
    }

    ghost method Register(o: RefCountedBuffer)
      requires Valid() && o !in objects && o.Counter() == Count(0, false, false) && o.buffer.IsConsistent()
      requires forall p :: p in objects ==>
                 p.buffer != o.buffer && (p.buffer.data != o.buffer.data || o.buffer.data == null)
      modifies this`objects
      ensures Valid() && objects == old(objects) + {o}
    {
      ghost var s := View();
      NewObjectKeeps(s, o);
      objects := objects + {o};
      assert View() == s.(counts := s.counts[o := Count(0, false, false)]);
      forall p | p in objects ensures BlockOk(p) {
        assert p != o ==> old(BlockOk(p));
      }
      forall p, q | p in objects && q in objects ensures Apart(p, q) {
        assert p != o && q != o ==> old(Apart(p, q));
      }
    }

    ghost function View(): Refs
      reads this, handles, objects
    {
      Refs(map h | h in handles :: h.ptr, map o | o in objects :: o.Counter())
    }

    ghost predicate BlockOk(o: RefCountedBuffer)
      reads o.buffer
    {
      o.buffer.IsConsistent()
    }

    /** Different objects own different blocks. */
    ghost predicate Apart(o: RefCountedBuffer, p: RefCountedBuffer)
      reads o.buffer, p.buffer
    {
      o != p ==> o.buffer != p.buffer && (o.buffer.data != p.buffer.data || o.buffer.data == null)
    }

    ghost predicate BlocksOk()
      reads this`objects, set o | o in objects :: o.buffer
    {
      && (forall o {:trigger BlockOk(o)} :: o in objects ==> BlockOk(o))
      && (forall o, p {:trigger Apart(o, p)} :: o in objects && p in objects ==> Apart(o, p))
    }

    /** A write through o, which may move o's block but to a new place. */
    twostate lemma BlocksKept(o: RefCountedBuffer)
      requires old(BlocksOk()) && objects == old(objects) && o in objects && o.buffer.IsConsistent()
      requires forall p :: p in objects && p.buffer != o.buffer ==> unchanged(p.buffer)
      requires o.buffer.data == old(o.buffer.data) || fresh(o.buffer.data)
      ensures BlocksOk()
    {
      forall p | p in objects ensures BlockOk(p) {
        assert old(BlockOk(p)) && old(Apart(o, p));
      }
      forall p, q | p in objects && q in objects ensures Apart(p, q) {
        assert old(Apart(p, q));
      }
    }

    ghost predicate Valid()
      reads this, handles, objects, set o | o in objects :: o.buffer
    {
      RefsOk(View()) && BlocksOk()
    }
  }

  class ScopedRefptr {
    var ptr: RefCountedBuffer?

    constructor (ghost arena: Arena)
      requires RefsOk(arena.View())
      modifies arena`handles
      ensures ptr == null && arena.handles == old(arena.handles) + {this}
      ensures arena.View() == old(arena.View()).(ptrs := old(arena.View()).ptrs[this := null])
      ensures RefsOk(arena.View()) && (old(arena.BlocksOk()) ==> arena.BlocksOk())
    {
      ptr := null;
      new;
      arena.Enroll(this);
    }

    /** The copy constructor. */
    constructor Copy(r: ScopedRefptr, ghost arena: Arena)
      requires arena.Valid() && r in arena.handles
      modifies arena`handles, arena.objects
      ensures ptr == r.ptr && arena.handles == old(arena.handles) + {this}
      ensures arena.Valid()
    {
      ptr := null;
      new;
      arena.Enroll(this);
      assert HandleOk(arena.View(), r) && arena.View().ptrs[r] == r.ptr;
      AssignRaw(r.ptr, arena);
    }

    method AddRef(p: RefCountedBuffer?, ghost arena: Arena)
      requires p != null ==> p in arena.objects
      modifies arena.objects
      ensures arena.View() == AddRefed(old(arena.View()), p)
    {
      if p != null {
        p.AddRef();
      }
    }

    method Release(ghost arena: Arena)
      requires ptr != null ==> ptr in arena.objects
      modifies arena.objects
      ensures arena.View() == Released(old(arena.View()), ptr)
    {
      if ptr != null {
        ptr.Release();
      }
    }

    method SetPointer(p: RefCountedBuffer?, ghost arena: Arena)
      requires this in arena.handles
      modifies this`ptr
      ensures arena.View() == old(arena.View()).(ptrs := old(arena.View()).ptrs[this := p]) && ptr == p
    {
      ptr := p;
    }

    /** operator=(T*): the new object gains its reference before the old one loses its. */
    method AssignRaw(p: RefCountedBuffer?, ghost arena: Arena)
      requires RefsOk(arena.View()) && this in arena.handles
      requires p != null ==> p in arena.objects && !p.deleted
      modifies this`ptr, arena.objects
      ensures HandleOk(old(arena.View()), this)
      ensures arena.View() == Assigned(old(arena.View()), this, p) && ptr == p
      ensures RefsOk(arena.View())
    {
      AssignedKeeps(arena.View(), this, p);
      AddRef(p, arena);
      Release(arena);
      SetPointer(p, arena);
    }

    /** Move assignment: a temporary takes the pointer of r, swaps with this, and dies. */
    method MoveAssign(r: ScopedRefptr, ghost arena: Arena)
      requires RefsOk(arena.View()) && this in arena.handles && r in arena.handles
      modifies arena`handles, this`ptr, r`ptr, arena.objects
      ensures RefsOk(arena.View()) && arena.handles == old(arena.handles)
      ensures HandleOk(old(arena.View()), this)
      ensures arena.View() == MoveAssigned(old(arena.View()), this, r)
    {
      ghost var s := arena.View();
      assert HandleOk(s, this) && HandleOk(s, r);
      var temp := new ScopedRefptr(arena);
      MoveAssignSteps(s, this, r, temp);
      temp.TakeFrom(r, arena);
      temp.Swap(this, arena);
      temp.Destroy(arena);
    }

    /** The move constructor on a null handle. */
    method TakeFrom(r: ScopedRefptr, ghost arena: Arena)
      requires RefsOk(arena.View()) && this in arena.handles && r in arena.handles && r != this && ptr == null
      modifies this`ptr, r`ptr
      ensures RefsOk(arena.View())
      ensures arena.View() == Repointed(old(arena.View()), this, old(r.ptr), r, null)
    {
      TransferKeeps(arena.View(), r, this);
      SetPointer(r.ptr, arena);
      r.SetPointer(null, arena);
    }

    method Swap(r: ScopedRefptr, ghost arena: Arena)
      requires RefsOk(arena.View()) && this in arena.handles && r in arena.handles
      modifies this`ptr, r`ptr
      ensures RefsOk(arena.View())
      ensures arena.View() == Repointed(old(arena.View()), this, old(r.ptr), r, old(ptr))
    {
      SwapKeeps(arena.View(), this, r);
      var p := ptr;
      SetPointer(r.ptr, arena);
      r.SetPointer(p, arena);
    }

    /** The destructor. */
    method Destroy(ghost arena: Arena)
      requires RefsOk(arena.View()) && this in arena.handles
      modifies arena`handles, this`ptr, arena.objects
      ensures RefsOk(arena.View()) && arena.handles == old(arena.handles) - {this}
      ensures HandleOk(old(arena.View()), this)
      ensures arena.View() == Released(old(arena.View()), old(ptr)).(ptrs := old(arena.View()).ptrs - {this})
    {
      ghost var s := arena.View();
      DestroyedKeeps(s, this);
      Release(arena);
      arena.handles := arena.handles - {this};
      assert arena.View() == Released(s, ptr).(ptrs := s.ptrs - {this});
    }

    /** The bytes a handle shows its user. */
    ghost function Value(): seq<Byte>
      reads this, if ptr == null then {} else {ptr.buffer}
      reads if ptr == null || ptr.buffer.data == null then {} else {ptr.buffer.data}
    {
      if ptr == null || !ptr.buffer.IsConsistent() then [] else ptr.buffer.Contents()
    }

    /** The objects an in-place write through this handle touches. */
    ghost function Block(): set<object>
      reads this, if ptr == null then {} else {ptr.buffer}
    {
      if ptr == null then {}
      else if ptr.buffer.data == null then {ptr.buffer}
      else {ptr.buffer, ptr.buffer.data}
    }

    /** Assignment from a new counted object around a block of its own. */
    method Adopt(b: BufferT<Byte>, ghost arena: Arena)
      requires arena.Valid() && this in arena.handles && b.IsConsistent()
      requires forall o :: o in arena.objects ==> o.buffer != b && (o.buffer.data != b.data || b.data == null)
      modifies this`ptr, arena`objects, arena.objects
      ensures arena.Valid() && ptr != null && ptr.buffer == b && ptr.refCount == 1
      ensures fresh(ptr) && arena.objects == old(arena.objects) + {ptr}
    {
      var o := new RefCountedBuffer(b);
      arena.Register(o);
      AssignRaw(o, arena);
      assert arena.View().counts[o] == o.Counter();
    }
  }
}

/** The smart pointer and the counted object on the heap, each method proved to be the step of the same name of the
    reference-counting model, with aliasing between handles and self-assignment included. */
module ScopedRefptrs {
  import opened Basics
  import opened RefCounting

  class RefCountedBase {
    var refCount: int
    /** Set where the source deletes the object. */
    var deleted: bool

    constructor ()
      ensures refCount == 0 && !deleted
    {
      refCount, deleted := 0, false;
    }

    method AddRef(ghost scene: Scene)
      requires this in scene.objects && !deleted
      modifies this
      ensures refCount == old(refCount) + 1 && !deleted
      ensures Reaches(RefCounting.AddRef(old(scene.Value()), Some(this)), scene.Value())
    {
      refCount := refCount + 1;
    }

    method Release(ghost scene: Scene) returns (droppedLast: bool)
      requires this in scene.objects && !deleted
      modifies this
      ensures refCount == old(refCount) - 1
      ensures droppedLast == deleted == (refCount == 0)
      ensures Reaches(RefCounting.Release(old(scene.Value()), Some(this)), scene.Value())
    {
      refCount := refCount - 1;
      droppedLast := refCount == 0;
      if droppedLast {
        deleted := true;
      }
    }
  }

  function Opt(p: RefCountedBase?): Option<RefCountedBase> {
    if p == null then None else Some(p)
  }

  type World = Heap<ScopedRefptr, RefCountedBase>

  /** The heap as the counting model sees it. */
  ghost function Snapshot(handles: set<ScopedRefptr>, objects: set<RefCountedBase>, loose: multiset<RefCountedBase>)
    : World
    reads handles, objects
  {
    Heap(map h | h in handles :: Opt(h.ptr),
         map o | o in objects && !o.deleted :: o.refCount,
         loose,
         multiset(set o | o in objects && o.deleted))
  }

  /** The handles and objects a program has, and the raw references it holds; every handle's object is among them. */
  datatype Scene = Scene(handles: set<ScopedRefptr>, objects: set<RefCountedBase>, loose: multiset<RefCountedBase>) {
    ghost function Value(): World
      reads handles, objects
    {
      Snapshot(handles, objects, loose)
    }

    ghost predicate Closed()
      reads handles, objects
    {
      forall h :: h in handles && h.ptr != null ==> h.ptr in objects
    }
  }

  /** The step got through and led here. */
  ghost predicate Reaches(expected: Outcome<World>, actual: World) {
    && expected.Ok?
    && actual.handles == expected.value.handles
    && actual.counts == expected.value.counts
    && actual.loose == expected.value.loose
    && actual.destroyed == expected.value.destroyed
  }

  /** A variable that holds a raw pointer. */
  class RawPointer {
    var target: RefCountedBase?
  }

  class ScopedRefptr {
    var ptr: RefCountedBase?

    constructor Null(ghost scene: Scene)
      ensures this !in scene.handles
      ensures Reaches(Step(old(scene.Value()), ConstructNull(this)), scene.(handles := scene.handles + {this}).Value())
    {
      ptr := null;
    }

    constructor FromRaw(p: RefCountedBase?, ghost scene: Scene)
      requires p != null ==> p in scene.objects && !p.deleted
      modifies p
      ensures this !in scene.handles && ptr == p
      ensures Reaches(Step(old(scene.Value()), ConstructRaw(this, Opt(p))),
                      scene.(handles := scene.handles + {this}).Value())
    {
      ptr := p;
      new;
      ghost var with := scene.(handles := scene.handles + {this});
      assert Reaches(Ok(Point(old(scene.Value()), this, Opt(p))), with.Value());
      if ptr != null {
        ptr.AddRef(with);
      }
    }

    constructor Copy(r: ScopedRefptr, ghost scene: Scene)
      requires r in scene.handles && scene.Closed()
      requires r.ptr != null ==> !r.ptr.deleted
      modifies r.ptr
      ensures this !in scene.handles && ptr == r.ptr
      ensures Reaches(Step(old(scene.Value()), ConstructCopy(this, r)),
                      scene.(handles := scene.handles + {this}).Value())
    {
      ptr := r.ptr;
      new;
      ghost var with := scene.(handles := scene.handles + {this});
      assert Reaches(Ok(Point(old(scene.Value()), this, Opt(r.ptr))), with.Value());
      if ptr != null {
        ptr.AddRef(with);
      }
    }

    constructor Move(r: ScopedRefptr, ghost scene: Scene)
      requires r in scene.handles
      modifies r
      ensures this !in scene.handles && ptr == old(r.ptr) && r.ptr == null
      ensures Reaches(Step(old(scene.Value()), ConstructMove(this, r)),
                      scene.(handles := scene.handles + {this}).Value())
    {
      var p := r.TakePointer();
      ptr := p;
    }

    /** The destructor. */
    method Destroy(ghost scene: Scene)
      requires this in scene.handles && scene.Closed()
      requires ptr != null ==> !ptr.deleted
      modifies ptr
      ensures Reaches(Step(old(scene.Value()), RefCounting.Destroy(this)),
                      scene.(handles := scene.handles - {this}).Value())
    {
      if ptr != null {
        var _ := ptr.Release(scene.(handles := scene.handles - {this}));
      }
    }

    method Release(ghost scene: Scene) returns (p: RefCountedBase?)
      requires this in scene.handles
      modifies this
      ensures p == old(ptr) && ptr == null
      ensures Reaches(Step(old(scene.Value()), ReleaseHandle(this)),
                      scene.(loose := scene.loose + AsMultiset(Opt(p))).Value())
    {
      p := TakePointer();
    }

    /** release(), without the view of the whole scene. */
    method TakePointer() returns (p: RefCountedBase?)
      modifies this
      ensures p == old(ptr) && ptr == null
    {
      p := ptr;
      ptr := null;
    }

    /** ptr_ = p */
    method PointTo(p: RefCountedBase?, ghost scene: Scene)
      modifies this
      ensures ptr == p
      ensures this in scene.handles ==> Reaches(Ok(Point(old(scene.Value()), this, Opt(p))), scene.Value())
    {
      ptr := p;
    }

    method AssignRaw(p: RefCountedBase?, ghost scene: Scene)
      requires this in scene.handles && scene.Closed()
      requires p != null ==> p in scene.objects && !p.deleted
      requires ptr != null ==> !ptr.deleted
      modifies this, ptr, p
      ensures ptr == p
      ensures Reaches(Step(old(scene.Value()), RefCounting.AssignRaw(this, Opt(p))), scene.Value())
    {
      if p != null {
        p.AddRef(scene);
      }
      ghost var counted := scene.Value();
      assert Reaches(RefCounting.AddRef(old(scene.Value()), Opt(p)), counted);
      if ptr != null {
        var _ := ptr.Release(scene);
      }
      assert Reaches(RefCounting.Release(counted, Opt(ptr)), scene.Value());
      PointTo(p, scene);
    }

    method Assign(r: ScopedRefptr, ghost scene: Scene)
      requires this in scene.handles && r in scene.handles && scene.Closed()
      requires r.ptr != null ==> !r.ptr.deleted
      requires ptr != null ==> !ptr.deleted
      modifies this, ptr, r.ptr
      ensures ptr == old(r.ptr)
      ensures Reaches(Step(old(scene.Value()), RefCounting.Assign(this, r)), scene.Value())
    {
      AssignRaw(r.ptr, scene);
    }

    method AssignMove(r: ScopedRefptr, ghost scene: Scene)
      requires this in scene.handles && r in scene.handles && scene.Closed()
      requires ptr != null ==> !ptr.deleted
      modifies this, r, ptr
      ensures ptr == old(r.ptr) && (r != this ==> r.ptr == null)
      ensures Reaches(Step(old(scene.Value()), RefCounting.AssignMove(this, r)), scene.Value())
    {
      ghost var s0 := scene.Value();
      var temporary := new ScopedRefptr.Move(r, scene);
      ghost var with := scene.(handles := scene.handles + {temporary});
      ghost var s1 := with.Value();
      assert Step(s0, ConstructMove(temporary, r)) == Ok(s1);
      temporary.Swap(this, with);
      ghost var s2 := with.Value();
      assert Step(s1, RefCounting.Swap(temporary, this)) == Ok(s2);
      temporary.Destroy(with);
      assert with.(handles := with.handles - {temporary}) == scene;
      MoveViaTemporary(s0, s1, s2, this, r, temporary);
    }

    method Swap(r: ScopedRefptr, ghost scene: Scene)
      requires this in scene.handles && r in scene.handles
      modifies this, r
      ensures ptr == old(r.ptr) && r.ptr == old(ptr)
      ensures Reaches(Step(old(scene.Value()), RefCounting.Swap(this, r)), scene.Value())
    {
      var p := ptr;
      ptr := r.ptr;
      r.ptr := p;
    }

    /** Whoever owns the variable owns a reference to what it points at. */
    method SwapRaw(pp: RawPointer, ghost scene: Scene)
      requires this in scene.handles && (pp.target != null ==> pp.target in scene.loose)
      modifies this, pp
      ensures ptr == old(pp.target) && pp.target == old(ptr)
      ensures var loose := scene.loose - AsMultiset(Opt(ptr)) + AsMultiset(Opt(pp.target));
              Reaches(Step(old(scene.Value()), RefCounting.SwapRaw(this, Opt(ptr))), scene.(loose := loose).Value())
    {
      var p := ptr;
      PointTo(pp.target, scene);
      pp.target := p;
    }
  }
}

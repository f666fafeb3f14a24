/** Reference counting as a whole: any number of handles over any number of counted objects. Handles and objects are
    named by values of H and O; an object stays in counts from its creation to its deletion. */
module RefCounting {
  import opened Basics

  datatype Heap<!H, !O> = Heap(
    handles: map<H, Option<O>>,
    counts: map<O, int>,
    loose: multiset<O>,
    destroyed: multiset<O>)

  // ---------------------------------------------------------------- the counted object

  /** Using an object that is not alive is what must never happen. */
  function AddRef<H, O>(s: Heap<H, O>, p: Option<O>): Outcome<Heap<H, O>> {
    if p.None? then Ok(s)
    else if p.value !in s.counts then CheckFailed
    else Ok(s.(counts := s.counts[p.value := s.counts[p.value] + 1]))
  }

  function Release<H, O>(s: Heap<H, O>, p: Option<O>): Outcome<Heap<H, O>> {
    if p.None? then Ok(s)
    else if p.value !in s.counts then CheckFailed
    else if s.counts[p.value] - 1 == 0 then
      Ok(s.(counts := s.counts - {p.value}, destroyed := s.destroyed + multiset{p.value}))
    else Ok(s.(counts := s.counts[p.value := s.counts[p.value] - 1]))
  }

  // ---------------------------------------------------------------- the handle

  /** The operations of a handle, and what code that deals in raw references does: create an object, drop a reference it
      owns. */
  datatype Op<H, O> =
    | NewObject(o: O)
    | DropReference(o: O)
    | ConstructNull(h: H)
    | ConstructRaw(h: H, p: Option<O>)
    | ConstructCopy(h: H, r: H)
    | ConstructMove(h: H, r: H)
    | Destroy(h: H)
    | ReleaseHandle(h: H)
    | AssignRaw(h: H, p: Option<O>)
    | Assign(h: H, r: H)
    | AssignMove(h: H, r: H)
    | Swap(h: H, r: H)
    | SwapRaw(h: H, p: Option<O>)

  function Point<H, O>(s: Heap<H, O>, h: H, p: Option<O>): Heap<H, O> {
    s.(handles := s.handles[h := p])
  }

  function AsMultiset<O>(p: Option<O>): multiset<O> {
    if p.Some? then multiset{p.value} else multiset{}
  }

  function ConstructFrom<H, O>(s: Heap<H, O>, h: H, p: Option<O>): Outcome<Heap<H, O>> {
    AddRef(Point(s, h, p), p)
  }

  function AssignPointer<H, O>(s: Heap<H, O>, h: H, p: Option<O>): Outcome<Heap<H, O>>
    requires h in s.handles
  {
    var s1 :- AddRef(s, p);
    var s2 :- Release(s1, s.handles[h]);
    Ok(Point(s2, h, p))
  }

  /** operator=(scoped_refptr&&): a temporary takes r's reference, trades it for h's, and dies. */
  function MoveInto<H, O>(s: Heap<H, O>, h: H, r: H): Outcome<Heap<H, O>>
    requires h in s.handles && r in s.handles
  {
    var temporary := s.handles[r];
    var s1 := Point(s, r, None);
    var s2 := Point(s1, h, temporary);
    Release(s2, s1.handles[h])
  }

  /** Handles are constructed before and used between construction and destruction; raw pointers point to live objects,
      and whoever drops or trades away a raw reference owns one. */
  predicate Permitted<H, O>(s: Heap<H, O>, op: Op<H, O>) {
    match op
    case NewObject(o) => o !in s.counts && o !in s.destroyed
    case DropReference(o) => o in s.loose
    case ConstructNull(h) => h !in s.handles
    case ConstructRaw(h, p) => h !in s.handles && (p.Some? ==> p.value in s.counts)
    case ConstructCopy(h, r) => h !in s.handles && r in s.handles
    case ConstructMove(h, r) => h !in s.handles && r in s.handles
    case Destroy(h) => h in s.handles
    case ReleaseHandle(h) => h in s.handles
    case AssignRaw(h, p) => h in s.handles && (p.Some? ==> p.value in s.counts)
    case Assign(h, r) => h in s.handles && r in s.handles
    case AssignMove(h, r) => h in s.handles && r in s.handles
    case Swap(h, r) => h in s.handles && r in s.handles
    case SwapRaw(h, p) => h in s.handles && (p.Some? ==> p.value in s.loose)
  }

  function Step<H, O>(s: Heap<H, O>, op: Op<H, O>): Outcome<Heap<H, O>>
    requires Permitted(s, op)
  {
    match op
    case NewObject(o) => Ok(s.(counts := s.counts[o := 0]))
    case DropReference(o) => Release(s.(loose := s.loose - multiset{o}), Some(o))
    case ConstructNull(h) => Ok(Point(s, h, None))
    case ConstructRaw(h, p) => ConstructFrom(s, h, p)
    case ConstructCopy(h, r) => ConstructFrom(s, h, s.handles[r])
    case ConstructMove(h, r) => Ok(Point(Point(s, r, None), h, s.handles[r]))
    case Destroy(h) => Release(s.(handles := s.handles - {h}), s.handles[h])
    case ReleaseHandle(h) => Ok(Point(s, h, None).(loose := s.loose + AsMultiset(s.handles[h])))
    case AssignRaw(h, p) => AssignPointer(s, h, p)
    case Assign(h, r) => AssignPointer(s, h, s.handles[r])
    case AssignMove(h, r) => MoveInto(s, h, r)
    case Swap(h, r) => Ok(Point(Point(s, h, s.handles[r]), r, s.handles[h]))
    case SwapRaw(h, p) => Ok(Point(s, h, p).(loose := s.loose - AsMultiset(p) + AsMultiset(s.handles[h])))
  }

  /** The three operations on the temporary amount to MoveInto. */
  lemma MoveViaTemporary<H, O>(s: Heap<H, O>, s1: Heap<H, O>, s2: Heap<H, O>, h: H, r: H, t: H)
    requires h in s.handles && r in s.handles && t !in s.handles
    requires Step(s, ConstructMove(t, r)) == Ok(s1)
    requires Step(s1, Swap(t, h)) == Ok(s2)
    ensures Step(s2, Destroy(t)) == Step(s, AssignMove(h, r))
  {
    assert s2.handles - {t} == s.handles[r := None][h := s.handles[r]];
  }

  // ---------------------------------------------------------------- the counting invariant

  ghost function Pointers<H, O>(handles: map<H, Option<O>>, o: O): set<H> {
    set h | h in handles && handles[h] == Some(o)
  }

  /** One if p is a reference to o. */
  ghost function One<O>(p: Option<O>, o: O): nat {
    if p == Some(o) then 1 else 0
  }

  /** How many references to an object exist: handles pointing at it, and raw references given out by release(). */
  ghost function References<H, O>(s: Heap<H, O>, o: O): nat {
    |Pointers(s.handles, o)| + s.loose[o]
  }

  /** Every handle and raw reference refers to a live object, counts are exact, and what was destroyed was destroyed
      once and is gone. */
  ghost predicate Counted<H, O>(s: Heap<H, O>) {
    && (forall h :: h in s.handles && s.handles[h].Some? ==> s.handles[h].value in s.counts)
    && (forall o :: o in s.loose ==> o in s.counts)
    && (forall o :: o in s.counts ==> s.counts[o] == References(s, o))
    && (forall o :: o in s.counts ==> o !in s.destroyed)
    && (forall o :: o in s.destroyed ==> s.destroyed[o] == 1)
  }

  /** Counted, but for one reference to p too many in the books, which a Release will strike out. */
  ghost predicate CountedPlus<H, O>(s: Heap<H, O>, p: Option<O>) {
    && (forall h :: h in s.handles && s.handles[h].Some? ==> s.handles[h].value in s.counts)
    && (forall o :: o in s.loose ==> o in s.counts)
    && (p.Some? ==> p.value in s.counts)
    && (forall o :: o in s.counts ==> s.counts[o] == References(s, o) + One(p, o))
    && (forall o :: o in s.counts ==> o !in s.destroyed)
    && (forall o :: o in s.destroyed ==> s.destroyed[o] == 1)
  }

  /** Redirecting one handle moves one reference. */
  lemma PointMovesAReference<H, O>(handles: map<H, Option<O>>, h: H, p: Option<O>, o: O)
    ensures |Pointers(handles[h := p], o)| ==
            |Pointers(handles, o)| - (if h in handles then One(handles[h], o) else 0) + One(p, o)
  {
    var rest := Pointers(handles, o) - {h};
    PointersWith(handles, h, o);
    PointersWith(handles[h := p], h, o);
    assert Pointers(handles[h := p], o) - {h} == rest;
  }

  lemma PointersWith<H, O>(handles: map<H, Option<O>>, h: H, o: O)
    ensures |Pointers(handles, o)| ==
            |Pointers(handles, o) - {h}| + (if h in handles then One(handles[h], o) else 0)
  {
    assert h in handles && handles[h] == Some(o) <==> h in Pointers(handles, o);
  }

  lemma RemovingAHandle<H, O>(handles: map<H, Option<O>>, h: H, o: O)
    requires h in handles
    ensures |Pointers(handles - {h}, o)| == |Pointers(handles, o)| - One(handles[h], o)
  {
    var rest := Pointers(handles, o) - {h};
    assert Pointers(handles - {h}, o) == rest;
    assert Pointers(handles, o) == if handles[h] == Some(o) then rest + {h} else rest;
  }

  /** A handle that points at an object is a reference to it. */
  lemma HandleIsAReference<H, O>(s: Heap<H, O>, h: H)
    requires h in s.handles
    ensures s.handles[h].Some? ==> References(s, s.handles[h].value) > 0
  {
    if s.handles[h].Some? {
      assert h in Pointers(s.handles, s.handles[h].value);
    }
  }

  lemma NoPointers<H, O>(handles: map<H, Option<O>>, o: O)
    requires |Pointers(handles, o)| == 0
    ensures forall h :: h in handles ==> handles[h] != Some(o)
  {
    assert Pointers(handles, o) == {};
    assert forall h :: h in handles && handles[h] == Some(o) ==> h in Pointers(handles, o);
  }

  /** Release settles the books and destroys exactly an object whose last reference went. */
  lemma ReleaseSettles<H, O>(s: Heap<H, O>, p: Option<O>)
    requires CountedPlus(s, p)
    ensures Release(s, p).Ok? && Counted(Release(s, p).value)
    ensures var s' := Release(s, p).value;
            && s'.handles == s.handles && s'.loose == s.loose
            && (forall o :: o in s.counts ==>
                  && (o in s'.destroyed <==> o !in s'.counts)
                  && (o !in s'.counts <==> p == Some(o) && References(s, o) == 0))
            && (forall o :: o in s'.counts ==> o in s.counts)
            && (forall o :: o in s.destroyed ==> s'.destroyed[o] == s.destroyed[o])
            && (forall o :: o in s'.destroyed ==> o in s.destroyed || o in s.counts)
  {
    var s' := Release(s, p).value;
    if p.Some? && s.counts[p.value] == 1 {
      assert References(s, p.value) == 0;
      NoPointers(s.handles, p.value);
      assert p.value !in s.loose;
    }
    forall o | o in s'.counts
      ensures s'.counts[o] == References(s', o)
    {
      assert References(s', o) == References(s, o);
    }
  }

  // ---------------------------------------------------------------- every step

  /** An object dies exactly in the step that takes its last reference, and dies once; everything else stays. */
  ghost predicate DestroysExactlyTheUnreferenced<H, O>(s: Heap<H, O>, s': Heap<H, O>) {
    && (forall o :: o in s.counts ==> (o !in s'.counts <==> References(s, o) > 0 && References(s', o) == 0))
    && (forall o :: o in s.counts ==> s'.destroyed[o] == if o in s'.counts then 0 else 1)
    && (forall o :: o in s.destroyed ==> s'.destroyed[o] == s.destroyed[o])
    && (forall o :: o in s'.destroyed ==> o in s.destroyed || o in s.counts)
  }

  /** The books before the final Release of a step: same live objects, nothing destroyed yet. */
  lemma SettleStep<H, O>(s: Heap<H, O>, mid: Heap<H, O>, p: Option<O>)
    requires Counted(s) && CountedPlus(mid, p)
    requires mid.counts.Keys == s.counts.Keys && mid.destroyed == s.destroyed
    requires forall o :: o in s.counts && p != Some(o) ==> References(s, o) <= References(mid, o)
    requires p.Some? ==> References(s, p.value) > 0
    ensures Release(mid, p).Ok?
    ensures Counted(Release(mid, p).value) && DestroysExactlyTheUnreferenced(s, Release(mid, p).value)
  {
    ReleaseSettles(mid, p);
    var s' := Release(mid, p).value;
    forall o | o in s.counts
      ensures References(s', o) == References(mid, o)
    {
    }
  }

  /** A step that creates and drops no reference keeps the books as they are. */
  lemma SameReferences<H, O>(s: Heap<H, O>, s': Heap<H, O>)
    requires Counted(s)
    requires s'.counts == s.counts && s'.destroyed == s.destroyed
    requires forall o :: o in s.counts ==> References(s', o) == References(s, o)
    requires forall h :: h in s'.handles && s'.handles[h].Some? ==> s'.handles[h].value in s.counts
    requires forall o :: o in s'.loose ==> o in s.counts
    ensures Counted(s') && DestroysExactlyTheUnreferenced(s, s')
  {
  }

  lemma ConstructKeepsCounted<H, O>(s: Heap<H, O>, h: H, p: Option<O>)
    requires Counted(s) && h !in s.handles && (p.Some? ==> p.value in s.counts)
    ensures ConstructFrom(s, h, p).Ok?
    ensures Counted(ConstructFrom(s, h, p).value) && DestroysExactlyTheUnreferenced(s, ConstructFrom(s, h, p).value)
  {
    var s' := ConstructFrom(s, h, p).value;
    forall o | o in s.counts
      ensures References(s', o) == References(s, o) + One(p, o)
    {
      PointMovesAReference(s.handles, h, p, o);
    }
  }

  /** AddRef comes first, so assigning a handle to itself never lets the count touch zero. */
  lemma AssignKeepsCounted<H, O>(s: Heap<H, O>, h: H, p: Option<O>)
    requires Counted(s) && h in s.handles && (p.Some? ==> p.value in s.counts)
    ensures AssignPointer(s, h, p).Ok?
    ensures Counted(AssignPointer(s, h, p).value) && DestroysExactlyTheUnreferenced(s, AssignPointer(s, h, p).value)
  {
    var held := s.handles[h];
    var mid := Point(AddRef(s, p).value, h, p);
    HandleIsAReference(s, h);
    forall o | o in s.counts
      ensures References(mid, o) == References(s, o) + One(p, o) - One(held, o)
    {
      PointMovesAReference(s.handles, h, p, o);
    }
    BooksBeforeRelease(s, mid, p, held);
    SettleStep(s, mid, held);
    ReleaseIgnoresHandles(AddRef(s, p).value, h, p, held);
  }

  lemma ReleaseIgnoresHandles<H, O>(s: Heap<H, O>, h: H, p: Option<O>, q: Option<O>)
    ensures Release(Point(s, h, p), q) ==
            if Release(s, q).Ok? then Ok(Point(Release(s, q).value, h, p)) else CheckFailed
  {
  }

  /** One reference gained, one lost, and only the gain booked so far. */
  lemma BooksBeforeRelease<H, O>(s: Heap<H, O>, mid: Heap<H, O>, gained: Option<O>, lost: Option<O>)
    requires Counted(s)
    requires mid.counts.Keys == s.counts.Keys && mid.destroyed == s.destroyed && mid.loose == s.loose
    requires forall o :: o in s.counts ==> mid.counts[o] == s.counts[o] + One(gained, o)
    requires forall o :: o in s.counts ==> References(mid, o) == References(s, o) + One(gained, o) - One(lost, o)
    requires forall h :: h in mid.handles && mid.handles[h].Some? ==> mid.handles[h].value in s.counts
    requires lost.Some? ==> lost.value in s.counts
    ensures CountedPlus(mid, lost)
    ensures forall o :: o in s.counts && lost != Some(o) ==> References(s, o) <= References(mid, o)
  {
  }

  lemma MoveKeepsCounted<H, O>(s: Heap<H, O>, h: H, r: H)
    requires Counted(s) && h in s.handles && r in s.handles
    ensures MoveInto(s, h, r).Ok?
    ensures Counted(MoveInto(s, h, r).value) && DestroysExactlyTheUnreferenced(s, MoveInto(s, h, r).value)
  {
    var moved := s.handles[r];
    var s1 := Point(s, r, None);
    var mid := Point(s1, h, moved);
    var held := s1.handles[h];
    forall o | o in s.counts
      ensures References(mid, o) == References(s, o) - One(held, o)
    {
      PointMovesAReference(s.handles, r, None, o);
      PointMovesAReference(s1.handles, h, moved, o);
    }
    HandleIsAReference(s, h);
    BooksBeforeRelease(s, mid, None, held);
    SettleStep(s, mid, held);
  }

  lemma DestroyKeepsCounted<H, O>(s: Heap<H, O>, h: H)
    requires Counted(s) && h in s.handles
    ensures var r := Step(s, Destroy(h));
            r.Ok? && Counted(r.value) && DestroysExactlyTheUnreferenced(s, r.value)
  {
    var mid := s.(handles := s.handles - {h});
    forall o | o in s.counts
      ensures References(mid, o) == References(s, o) - One(s.handles[h], o)
    {
      RemovingAHandle(s.handles, h, o);
    }
    HandleIsAReference(s, h);
    BooksBeforeRelease(s, mid, None, s.handles[h]);
    SettleStep(s, mid, s.handles[h]);
  }

  lemma DropKeepsCounted<H, O>(s: Heap<H, O>, o: O)
    requires Counted(s) && o in s.loose
    ensures var r := Step(s, DropReference(o));
            r.Ok? && Counted(r.value) && DestroysExactlyTheUnreferenced(s, r.value)
  {
    var mid := s.(loose := s.loose - multiset{o});
    forall x | x in s.counts
      ensures References(mid, x) == References(s, x) - One(Some(o), x)
    {
      assert mid.loose[x] == s.loose[x] - One(Some(o), x);
    }
    SettleStep(s, mid, Some(o));
  }

  /** Steps that only pass references around between handles. */
  lemma HandleTransfersKeepCounted<H, O>(s: Heap<H, O>, op: Op<H, O>)
    requires Counted(s) && Permitted(s, op)
    requires op.ConstructNull? || op.ConstructMove? || op.Swap?
    ensures var r := Step(s, op);
            r.Ok? && Counted(r.value) && DestroysExactlyTheUnreferenced(s, r.value)
  {
    var s' := Step(s, op).value;
    forall o | o in s.counts
      ensures References(s', o) == References(s, o)
    {
      match op
      case ConstructNull(h) => PointMovesAReference(s.handles, h, None, o);
      case ConstructMove(h, r) =>
        PointMovesAReference(s.handles, r, None, o);
        PointMovesAReference(s.handles[r := None], h, s.handles[r], o);
      case Swap(h, r) =>
        PointMovesAReference(s.handles, h, s.handles[r], o);
        PointMovesAReference(s.handles[h := s.handles[r]], r, s.handles[h], o);
    }
    SameReferences(s, s');
  }

  lemma LooseAfterTrade<O>(loose: multiset<O>, p: Option<O>, q: Option<O>, o: O)
    requires p.Some? ==> p.value in loose
    ensures (loose - AsMultiset(p) + AsMultiset(q))[o] == loose[o] - One(p, o) + One(q, o)
  {
  }

  /** A handle trades its reference for a raw one, or for none. */
  lemma RawTransferKeepsCounted<H, O>(s: Heap<H, O>, h: H, p: Option<O>)
    requires Counted(s) && h in s.handles && (p.Some? ==> p.value in s.loose)
    ensures var s' := Point(s, h, p).(loose := s.loose - AsMultiset(p) + AsMultiset(s.handles[h]));
            Counted(s') && DestroysExactlyTheUnreferenced(s, s')
  {
    var s' := Point(s, h, p).(loose := s.loose - AsMultiset(p) + AsMultiset(s.handles[h]));
    forall o | o in s.counts
      ensures References(s', o) == References(s, o)
    {
      PointMovesAReference(s.handles, h, p, o);
      LooseAfterTrade(s.loose, p, s.handles[h], o);
    }
    SameReferences(s, s');
  }

  lemma NewObjectKeepsCounted<H, O>(s: Heap<H, O>, o: O)
    requires Counted(s) && o !in s.counts && o !in s.destroyed
    ensures var r := Step(s, NewObject(o));
            r.Ok? && Counted(r.value) && DestroysExactlyTheUnreferenced(s, r.value)
  {
    var s' := Step(s, NewObject(o)).value;
    assert Pointers(s.handles, o) == {};
    forall x | x in s'.counts
      ensures s'.counts[x] == References(s', x)
    {
      assert References(s', x) == References(s, x);
    }
  }

  lemma StepKeepsCounted<H, O>(s: Heap<H, O>, op: Op<H, O>)
    requires Counted(s) && Permitted(s, op)
    ensures var r := Step(s, op);
            r.Ok? && Counted(r.value) && DestroysExactlyTheUnreferenced(s, r.value)
  {
    match op
    case NewObject(o) => NewObjectKeepsCounted(s, o);
    case DropReference(o) => DropKeepsCounted(s, o);
    case ConstructRaw(h, p) => ConstructKeepsCounted(s, h, p);
    case ConstructCopy(h, r) => ConstructKeepsCounted(s, h, s.handles[r]);
    case Destroy(h) => DestroyKeepsCounted(s, h);
    case AssignRaw(h, p) => AssignKeepsCounted(s, h, p);
    case Assign(h, r) => AssignKeepsCounted(s, h, s.handles[r]);
    case AssignMove(h, r) => MoveKeepsCounted(s, h, r);
    case ReleaseHandle(h) =>
      RawTransferKeepsCounted(s, h, None);
      assert s.loose - multiset{} == s.loose;
    case SwapRaw(h, p) => RawTransferKeepsCounted(s, h, p);
    case _ => HandleTransfersKeepCounted(s, op);
  }

  // ---------------------------------------------------------------- what a step brings about

  /** The handles after an operation, and where they point. */
  ghost function HandlesAfter<H, O>(s: Heap<H, O>, op: Op<H, O>): map<H, Option<O>>
    requires Permitted(s, op)
  {
    match op
    case NewObject(_) => s.handles
    case DropReference(_) => s.handles
    case ConstructNull(h) => s.handles[h := None]
    case ConstructRaw(h, p) => s.handles[h := p]
    case ConstructCopy(h, r) => s.handles[h := s.handles[r]]
    case ConstructMove(h, r) => s.handles[h := s.handles[r]][r := None]
    case Destroy(h) => s.handles - {h}
    case ReleaseHandle(h) => s.handles[h := None]
    case AssignRaw(h, p) => s.handles[h := p]
    case Assign(h, r) => s.handles[h := s.handles[r]]
    case AssignMove(h, r) => if h == r then s.handles else s.handles[h := s.handles[r]][r := None]
    case Swap(h, r) => s.handles[h := s.handles[r]][r := s.handles[h]]
    case SwapRaw(h, p) => s.handles[h := p]
  }

  /** How many raw references to an object the program owns after an operation. */
  ghost function LooseAfter<H, O>(s: Heap<H, O>, op: Op<H, O>, o: O): int
    requires Permitted(s, op)
  {
    match op
    case DropReference(x) => s.loose[o] - One(Some(x), o)
    case ReleaseHandle(h) => s.loose[o] + One(s.handles[h], o)
    case SwapRaw(h, p) => s.loose[o] - One(p, o) + One(s.handles[h], o)
    case _ => s.loose[o]
  }

  lemma ReleaseEffect<H, O>(s: Heap<H, O>, p: Option<O>)
    requires Release(s, p).Ok?
    ensures Release(s, p).value.handles == s.handles && Release(s, p).value.loose == s.loose
  {
  }

  lemma AssignEffect<H, O>(s: Heap<H, O>, h: H, p: Option<O>)
    requires h in s.handles && AssignPointer(s, h, p).Ok?
    ensures AssignPointer(s, h, p).value.handles == s.handles[h := p] && AssignPointer(s, h, p).value.loose == s.loose
  {
    ReleaseEffect(AddRef(s, p).value, s.handles[h]);
  }

  lemma MoveEffect<H, O>(s: Heap<H, O>, h: H, r: H)
    requires h in s.handles && r in s.handles && MoveInto(s, h, r).Ok?
    ensures MoveInto(s, h, r).value.handles ==
            if h == r then s.handles else s.handles[h := s.handles[r]][r := None]
    ensures MoveInto(s, h, r).value.loose == s.loose
  {
    var s1 := Point(s, r, None);
    ReleaseEffect(Point(s1, h, s.handles[r]), s1.handles[h]);
  }

  lemma TransferEffect<H, O>(s: Heap<H, O>, op: Op<H, O>)
    requires Permitted(s, op) && (op.ConstructMove? || op.Swap?)
    ensures Step(s, op).value.handles == HandlesAfter(s, op)
  {
  }

  /** Counting aside, an operation does to handles what it says. */
  lemma HandlesEffect<H, O>(s: Heap<H, O>, op: Op<H, O>)
    requires Permitted(s, op) && Step(s, op).Ok?
    ensures Step(s, op).value.handles == HandlesAfter(s, op)
  {
    match op
    case DropReference(o) => ReleaseEffect(s.(loose := s.loose - multiset{o}), Some(o));
    case Destroy(h) => ReleaseEffect(s.(handles := s.handles - {h}), s.handles[h]);
    case AssignRaw(h, p) => AssignEffect(s, h, p);
    case Assign(h, r) => AssignEffect(s, h, s.handles[r]);
    case AssignMove(h, r) => MoveEffect(s, h, r);
    case ConstructMove(_, _) => TransferEffect(s, op);
    case Swap(_, _) => TransferEffect(s, op);
    case _ =>
  }

  lemma LooseKept<H, O>(s: Heap<H, O>, op: Op<H, O>)
    requires Permitted(s, op) && Step(s, op).Ok?
    requires !op.DropReference? && !op.ReleaseHandle? && !op.SwapRaw?
    ensures Step(s, op).value.loose == s.loose
  {
    match op
    case Destroy(h) => ReleaseEffect(s.(handles := s.handles - {h}), s.handles[h]);
    case AssignRaw(h, p) => AssignEffect(s, h, p);
    case Assign(h, r) => AssignEffect(s, h, s.handles[r]);
    case AssignMove(h, r) => MoveEffect(s, h, r);
    case _ =>
  }

  lemma LooseAfterGain<O>(loose: multiset<O>, q: Option<O>, o: O)
    ensures (loose + AsMultiset(q))[o] == loose[o] + One(q, o)
  {
  }

  lemma LooseAfterDrop<O>(loose: multiset<O>, x: O, o: O)
    requires x in loose
    ensures (loose - multiset{x})[o] == loose[o] - One(Some(x), o)
  {
  }

  /** And to raw references. */
  lemma LooseEffect<H, O>(s: Heap<H, O>, op: Op<H, O>, o: O)
    requires Permitted(s, op) && Step(s, op).Ok?
    ensures Step(s, op).value.loose[o] == LooseAfter(s, op, o)
  {
    if op.DropReference? {
      ReleaseEffect(s.(loose := s.loose - multiset{op.o}), Some(op.o));
      LooseAfterDrop(s.loose, op.o, o);
    } else if op.ReleaseHandle? {
      LooseAfterGain(s.loose, s.handles[op.h], o);
    } else if op.SwapRaw? {
      LooseAfterTrade(s.loose, op.p, s.handles[op.h], o);
    } else {
      LooseKept(s, op);
    }
  }

  /** A new object is alive and nobody's. */
  lemma NewObjectEffect<H, O>(s: Heap<H, O>, o: O)
    requires Permitted(s, NewObject(o))
    ensures var s' := Step(s, NewObject(o)).value;
            && s'.counts.Keys == s.counts.Keys + {o} && s'.counts[o] == 0
            && (forall p :: p in s.counts && p != o ==> s'.counts[p] == s.counts[p])
            && s' == s.(counts := s'.counts)
  {
  }

  // ---------------------------------------------------------------- every run

  /** Each operation is permitted in the state it meets. */
  ghost predicate PermittedRun<H, O>(s: Heap<H, O>, ops: seq<Op<H, O>>)
    decreases ops
  {
    ops != [] ==>
      && Permitted(s, ops[0])
      && (Step(s, ops[0]).Ok? ==> PermittedRun(Step(s, ops[0]).value, ops[1..]))
  }

  function Run<H, O>(s: Heap<H, O>, ops: seq<Op<H, O>>): Outcome<Heap<H, O>>
    requires PermittedRun(s, ops)
    decreases ops
  {
    if ops == [] then Ok(s)
    else
      var s' :- Step(s, ops[0]);
      Run(s', ops[1..])
  }

  function EmptyHeap<H, O>(): Heap<H, O> {
    Heap(map[], map[], multiset{}, multiset{})
  }

  /** In every step of the run, objects die exactly if the step takes their last reference. */
  ghost predicate EveryDeathIsDue<H, O>(s: Heap<H, O>, ops: seq<Op<H, O>>)
    requires PermittedRun(s, ops)
    decreases ops
  {
    ops != [] && Step(s, ops[0]).Ok? ==>
      && DestroysExactlyTheUnreferenced(s, Step(s, ops[0]).value)
      && EveryDeathIsDue(Step(s, ops[0]).value, ops[1..])
  }

  /** An object is alive, or was destroyed once. */
  ghost predicate Settled<H, O>(s: Heap<H, O>, o: O) {
    s.destroyed[o] == if o in s.counts then 0 else 1
  }

  /** No run ever touches a dead object; afterwards counts are exact, and every object that was alive at the start or
      created since is alive or was destroyed once, in the step that took its last reference. */
  lemma {:induction false} RunKeepsCounted<H, O>(s: Heap<H, O>, ops: seq<Op<H, O>>)
    requires Counted(s) && PermittedRun(s, ops)
    ensures Run(s, ops).Ok? && Counted(Run(s, ops).value) && EveryDeathIsDue(s, ops)
    ensures forall o :: o in s.counts || o in s.destroyed || NewObject(o) in ops ==> Settled(Run(s, ops).value, o)
    ensures forall o :: o in s.destroyed ==> o in Run(s, ops).value.destroyed
    decreases ops
  {
    if ops == [] {
    } else {
      StepKeepsCounted(s, ops[0]);
      var s' := Step(s, ops[0]).value;
      RunKeepsCounted(s', ops[1..]);
      forall o | o in s.counts || o in s.destroyed || NewObject(o) in ops
        ensures o in s'.counts || o in s'.destroyed || NewObject(o) in ops[1..]
      {
        assert NewObject(o) in ops ==> ops[0] == NewObject(o) || NewObject(o) in ops[1..];
      }
    }
  }

  /** From nothing: whatever was ever created is alive, with an exact count, or was destroyed once, when its last
      reference went. */
  lemma ReferenceCounting<H, O>(ops: seq<Op<H, O>>)
    requires PermittedRun(EmptyHeap<H, O>(), ops)
    ensures Run(EmptyHeap<H, O>(), ops).Ok? && Counted(Run(EmptyHeap<H, O>(), ops).value)
    ensures EveryDeathIsDue(EmptyHeap<H, O>(), ops)
    ensures var s := Run(EmptyHeap<H, O>(), ops).value;
            forall o :: NewObject(o) in ops ==> s.destroyed[o] == if o in s.counts then 0 else 1
  {
    RunKeepsCounted(EmptyHeap<H, O>(), ops);
    var s := Run(EmptyHeap<H, O>(), ops).value;
    forall o | NewObject(o) in ops
      ensures s.destroyed[o] == if o in s.counts then 0 else 1
    {
      assert Settled(s, o);
    }
  }
}

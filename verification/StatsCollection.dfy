/** A collection of statistics reports that owns what is in its list: lookups, replacement and merging, with every
    report accounted for. */
module StatsCollections {
  import opened Basics
  import opened StatsIds

  /** A report allocated on the heap: its address and the identifier it keeps for life. Identifiers are compared with
      Equals, which is equality on valid ones. */
  datatype Report = Report(address: nat, id: Id)

  // ---------------------------------------------------------------- the list

  predicate DistinctIds(list: seq<Report>) {
    forall i, j :: 0 <= i < j < |list| ==> list[i].id != list[j].id
  }

  /** The position of the first report with an equal identifier, the length of the list if there is none. */
  function IndexOf(list: seq<Report>, id: Id): (k: nat)
    ensures k <= |list|
    ensures k < |list| ==> list[k].id == id
    ensures forall i :: 0 <= i < k ==> list[i].id != id
  {
    if list == [] then 0
    else if list[0].id == id then 0
    else 1 + IndexOf(list[1..], id)
  }

  function Lookup(list: seq<Report>, id: Id): Option<Report> {
    var k := IndexOf(list, id);
    if k < |list| then Some(list[k]) else None
  }

  /** Puts a report in the place of the one with its identifier, or at the end. */
  function Put(list: seq<Report>, r: Report): seq<Report> {
    var k := IndexOf(list, r.id);
    if k < |list| then list[k := r] else list + [r]
  }

  function Displaced(list: seq<Report>, r: Report): multiset<Report> {
    var k := IndexOf(list, r.id);
    if k < |list| then multiset{list[k]} else multiset{}
  }

  function Merge(list: seq<Report>, incoming: seq<Report>): seq<Report>
    decreases incoming
  {
    if incoming == [] then list else Merge(Put(list, incoming[0]), incoming[1..])
  }

  function MergeDeletes(list: seq<Report>, incoming: seq<Report>): multiset<Report>
    decreases incoming
  {
    if incoming == [] then multiset{}
    else Displaced(list, incoming[0]) + MergeDeletes(Put(list, incoming[0]), incoming[1..])
  }

  // ---------------------------------------------------------------- merging is a right-biased override

  function Ids(list: seq<Report>): seq<Id> {
    seq(|list|, i requires 0 <= i < |list| => list[i].id)
  }

  /** The identifiers that are not yet known, each once, in the order of their first arrival. */
  function FirstArrivals(known: seq<Id>, arriving: seq<Id>): seq<Id>
    decreases arriving
  {
    if arriving == [] then []
    else if arriving[0] in known then FirstArrivals(known, arriving[1..])
    else [arriving[0]] + FirstArrivals(known + [arriving[0]], arriving[1..])
  }

  /** The last report with an identifier. */
  function Latest(list: seq<Report>, id: Id): Option<Report> {
    if list == [] then None
    else
      var last := list[|list| - 1];
      if last.id == id then Some(last) else Latest(list[..|list| - 1], id)
  }

  lemma PutEffect(list: seq<Report>, r: Report)
    requires DistinctIds(list)
    ensures DistinctIds(Put(list, r))
    ensures Ids(Put(list, r)) == if r.id in Ids(list) then Ids(list) else Ids(list) + [r.id]
    ensures multiset(list) + multiset{r} == multiset(Put(list, r)) + Displaced(list, r)
  {
    var k := IndexOf(list, r.id);
    if k < |list| {
      assert Ids(list)[k] == r.id;
    }
  }

  lemma PutFind(list: seq<Report>, r: Report, id: Id)
    requires DistinctIds(list)
    ensures Lookup(Put(list, r), id) == if id == r.id then Some(r) else Lookup(list, id)
  {
    PutEffect(list, r);
    FindIsTheOne(Put(list, r), id);
    var k, j := IndexOf(list, r.id), IndexOf(list, id);
    if id == r.id {
      assert Put(list, r)[k] == r;
    } else if j < |list| {
      assert Put(list, r)[j] == list[j];
    } else {
      assert forall i :: 0 <= i < |Put(list, r)| ==> Put(list, r)[i].id != id;
    }
  }

  /** In a list without repeated identifiers the report with an identifier is the only one. */
  lemma FindIsTheOne(list: seq<Report>, id: Id)
    requires DistinctIds(list)
    ensures forall i :: 0 <= i < |list| && list[i].id == id ==> Lookup(list, id) == Some(list[i])
    ensures Lookup(list, id).None? ==> forall i :: 0 <= i < |list| ==> list[i].id != id
  {
  }

  lemma {:induction false} LatestOfCons(list: seq<Report>, id: Id)
    requires list != []
    ensures Latest(list, id) == if Latest(list[1..], id).Some? then Latest(list[1..], id)
                                else if list[0].id == id then Some(list[0]) else None
  {
    if |list| > 1 {
      var front := list[..|list| - 1];
      assert list[1..][..|list| - 2] == front[1..];
      LatestOfCons(front, id);
    }
  }

  lemma IdsOfCons(incoming: seq<Report>)
    requires incoming != []
    ensures Ids(incoming)[0] == incoming[0].id && Ids(incoming)[1..] == Ids(incoming[1..])
  {
  }

  lemma {:induction false} MergeKeepsPlaces(list: seq<Report>, incoming: seq<Report>)
    requires DistinctIds(list)
    ensures DistinctIds(Merge(list, incoming))
    ensures Ids(Merge(list, incoming)) == Ids(list) + FirstArrivals(Ids(list), Ids(incoming))
    decreases incoming
  {
    if incoming == [] {
    } else {
      var r, rest := incoming[0], incoming[1..];
      PutEffect(list, r);
      MergeKeepsPlaces(Put(list, r), rest);
      IdsOfCons(incoming);
      Regroup(Ids(list), r.id, FirstArrivals(Ids(list) + [r.id], Ids(rest)));
    }
  }

  lemma Regroup<T>(a: seq<T>, x: T, b: seq<T>)
    ensures a + [x] + b == a + ([x] + b)
  {
  }

  lemma {:induction false} MergePrefersTheLatest(list: seq<Report>, incoming: seq<Report>, id: Id)
    requires DistinctIds(list)
    ensures Lookup(Merge(list, incoming), id) ==
            if Latest(incoming, id).Some? then Latest(incoming, id) else Lookup(list, id)
    decreases incoming
  {
    if incoming == [] {
    } else {
      PutEffect(list, incoming[0]);
      PutFind(list, incoming[0], id);
      MergePrefersTheLatest(Put(list, incoming[0]), incoming[1..], id);
      LatestOfCons(incoming, id);
    }
  }

  lemma {:induction false} MergeLosesNothing(list: seq<Report>, incoming: seq<Report>)
    requires DistinctIds(list)
    ensures multiset(list) + multiset(incoming) == multiset(Merge(list, incoming)) + MergeDeletes(list, incoming)
    decreases incoming
  {
    if incoming == [] {
    } else {
      var r, rest := incoming[0], incoming[1..];
      PutEffect(list, r);
      MergeLosesNothing(Put(list, r), rest);
      MultisetOfCons(incoming);
      Balance(multiset(list), r, multiset(rest), multiset(Put(list, r)), Displaced(list, r),
              multiset(Merge(list, incoming)), MergeDeletes(Put(list, r), rest));
    }
  }

  lemma MultisetOfCons(incoming: seq<Report>)
    requires incoming != []
    ensures multiset(incoming) == multiset{incoming[0]} + multiset(incoming[1..])
  {
    assert incoming == [incoming[0]] + incoming[1..];
  }

  lemma Balance<T>(list: multiset<T>, r: T, rest: multiset<T>, put: multiset<T>, displaced: multiset<T>,
                   merged: multiset<T>, deleted: multiset<T>)
    requires list + multiset{r} == put + displaced
    requires put + rest == merged + deleted
    ensures list + (multiset{r} + rest) == merged + (displaced + deleted)
  {
    calc {
      list + (multiset{r} + rest);
      (list + multiset{r}) + rest;
      (put + displaced) + rest;
      (put + rest) + displaced;
      merged + (displaced + deleted);
    }
  }

  /** After a merge, whoever came in last under an identifier holds it, everyone else is where they were; identifiers
      keep their places and new ones follow in the order of their first arrival; no report is lost or deleted twice. */
  lemma MergeIsRightBiasedOverride(list: seq<Report>, incoming: seq<Report>)
    requires DistinctIds(list)
    ensures DistinctIds(Merge(list, incoming))
    ensures Ids(Merge(list, incoming)) == Ids(list) + FirstArrivals(Ids(list), Ids(incoming))
    ensures forall id :: Lookup(Merge(list, incoming), id) ==
                         if Latest(incoming, id).Some? then Latest(incoming, id) else Lookup(list, id)
    ensures multiset(list) + multiset(incoming) == multiset(Merge(list, incoming)) + MergeDeletes(list, incoming)
  {
    MergeKeepsPlaces(list, incoming);
    MergeLosesNothing(list, incoming);
    forall id: Id
      ensures Lookup(Merge(list, incoming), id) ==
              if Latest(incoming, id).Some? then Latest(incoming, id) else Lookup(list, id)
    {
      MergePrefersTheLatest(list, incoming, id);
    }
  }

  // ---------------------------------------------------------------- ownership over runs

  /** Every report ever allocated, in the order of allocation, and where it is now, as one collection sees it. */
  datatype Ledger = Ledger(
    history: seq<Report>,
    list: seq<Report>,
    detached: multiset<Report>,
    deleted: multiset<Report>)

  datatype Op =
    | InsertNew(id: Id)
    | FindOrAddNew(id: Id)
    | ReplaceOrAddNew(id: Id)
    | DetachCollection
    | MergeCollection(incoming: seq<Report>)
    | Destruct

  /** A report allocated now. */
  function NewReport(l: Ledger, id: Id): Report {
    Report(|l.history|, id)
  }

  function Insert(l: Ledger, id: Id): Outcome<Ledger> {
    if Lookup(l.list, id).Some? then CheckFailed
    else Ok(l.(history := l.history + [NewReport(l, id)], list := l.list + [NewReport(l, id)]))
  }

  /** A merge takes reports that were detached before. */
  function Step(l: Ledger, op: Op): Outcome<Ledger> {
    match op
    case InsertNew(id) => Insert(l, id)
    case FindOrAddNew(id) => if Lookup(l.list, id).Some? then Ok(l) else Insert(l, id)
    case ReplaceOrAddNew(id) =>
      var k := IndexOf(l.list, id);
      if k < |l.list| then
        var report := NewReport(l, l.list[k].id);
        Ok(l.(history := l.history + [report], list := l.list[k := report], deleted := l.deleted + multiset{l.list[k]}))
      else Insert(l, id)
    case DetachCollection => Ok(l.(list := [], detached := l.detached + multiset(l.list)))
    case MergeCollection(incoming) =>
      if multiset(incoming) <= l.detached then
        Ok(l.(list := Merge(l.list, incoming),
              detached := l.detached - multiset(incoming),
              deleted := l.deleted + MergeDeletes(l.list, incoming)))
      else CheckFailed
    case Destruct => Ok(l.(list := [], deleted := l.deleted + multiset(l.list)))
  }

  /** Identifiers in the list differ, and every report allocated is in the list, detached, deleted or elsewhere, that is
      in another collection, in exactly one of these and exactly once. */
  ghost predicate Accounted(l: Ledger, elsewhere: multiset<Report>) {
    && DistinctIds(l.list)
    && (forall k :: 0 <= k < |l.history| ==> l.history[k].address == k)
    && multiset(l.history) == multiset(l.list) + l.detached + l.deleted + elsewhere
  }

  lemma InsertKeepsAccounted(l: Ledger, elsewhere: multiset<Report>, id: Id)
    requires Accounted(l, elsewhere) && Insert(l, id).Ok?
    ensures Accounted(Insert(l, id).value, elsewhere)
  {
    var r := NewReport(l, id);
    assert multiset(l.history + [r]) == multiset(l.history) + multiset{r};
    assert multiset(l.list + [r]) == multiset(l.list) + multiset{r};
  }

  lemma ReplaceKeepsAccounted(l: Ledger, elsewhere: multiset<Report>, id: Id)
    requires Accounted(l, elsewhere) && Step(l, ReplaceOrAddNew(id)).Ok?
    ensures Accounted(Step(l, ReplaceOrAddNew(id)).value, elsewhere)
  {
    var k := IndexOf(l.list, id);
    if k < |l.list| {
      var r := NewReport(l, l.list[k].id);
      PutEffect(l.list, r);
      assert Put(l.list, r) == l.list[k := r];
      assert multiset(l.history + [r]) == multiset(l.history) + multiset{r};
    } else {
      InsertKeepsAccounted(l, elsewhere, id);
    }
  }

  lemma MergeKeepsAccounted(l: Ledger, elsewhere: multiset<Report>, incoming: seq<Report>)
    requires Accounted(l, elsewhere) && multiset(incoming) <= l.detached
    ensures Accounted(Step(l, MergeCollection(incoming)).value, elsewhere)
  {
    MergeKeepsPlaces(l.list, incoming);
    MergeLosesNothing(l.list, incoming);
    Settle(multiset(l.list), multiset(incoming), l.detached, l.deleted,
           multiset(Merge(l.list, incoming)), MergeDeletes(l.list, incoming));
  }

  lemma Settle<T>(list: multiset<T>, incoming: multiset<T>, detached: multiset<T>, deleted: multiset<T>,
                  merged: multiset<T>, dropped: multiset<T>)
    requires incoming <= detached && list + incoming == merged + dropped
    ensures list + detached + deleted == merged + (detached - incoming) + (deleted + dropped)
  {
    var left := detached - incoming;
    assert detached == incoming + left;
    calc {
      list + detached + deleted;
      (list + incoming) + left + deleted;
      (merged + dropped) + left + deleted;
      merged + left + (deleted + dropped);
    }
  }

  lemma StepKeepsAccounted(l: Ledger, elsewhere: multiset<Report>, op: Op)
    requires Accounted(l, elsewhere) && Step(l, op).Ok?
    ensures Accounted(Step(l, op).value, elsewhere)
  {
    match op
    case InsertNew(id) => InsertKeepsAccounted(l, elsewhere, id);
    case FindOrAddNew(id) =>
      if Lookup(l.list, id).None? {
        InsertKeepsAccounted(l, elsewhere, id);
      }
    case ReplaceOrAddNew(id) => ReplaceKeepsAccounted(l, elsewhere, id);
    case MergeCollection(incoming) => MergeKeepsAccounted(l, elsewhere, incoming);
    case DetachCollection =>
    case Destruct =>
  }

  /** Whatever an operation does to the list, it does in one place: new reports come last, a replacement takes the place
      of the report it replaces, and every other report stays where it is. */
  lemma StepEffect(l: Ledger, op: Op)
    requires Step(l, op).Ok?
    ensures var l' := Step(l, op).value;
            match op
            case InsertNew(id) => Lookup(l.list, id).None? && AppendsNew(l, l', id)
            case FindOrAddNew(id) => if Lookup(l.list, id).Some? then l' == l else AppendsNew(l, l', id)
            case ReplaceOrAddNew(id) =>
              if Lookup(l.list, id).None? then AppendsNew(l, l', id) else ReplacesInPlace(l, l', id)
            case DetachCollection =>
              && l'.list == [] && l'.history == l.history && l'.deleted == l.deleted
              && l'.detached == l.detached + multiset(l.list)
            case MergeCollection(incoming) => l'.history == l.history && l'.detached + multiset(incoming) == l.detached
            case Destruct =>
              && l'.list == [] && l'.history == l.history && l'.detached == l.detached
              && l'.deleted == l.deleted + multiset(l.list)
  {
  }

  /** A report that was never there before, at the end. */
  predicate AppendsNew(l: Ledger, l': Ledger, id: Id) {
    && |l'.list| == |l.list| + 1 && l'.list[..|l.list|] == l.list
    && l'.list[|l.list|] == Report(|l.history|, id)
    && l'.history == l.history + [Report(|l.history|, id)]
    && l'.detached == l.detached && l'.deleted == l.deleted
  }

  predicate ReplacesInPlace(l: Ledger, l': Ledger, id: Id) {
    && |l'.list| == |l.list|
    && (forall i :: 0 <= i < |l.list| ==>
          if i == IndexOf(l.list, id) then l'.list[i] == Report(|l.history|, id) else l'.list[i] == l.list[i])
    && l'.history == l.history + [Report(|l.history|, id)]
    && l'.detached == l.detached
    && Lookup(l.list, id).Some? && l'.deleted == l.deleted + multiset{Lookup(l.list, id).value}
  }

  // ---------------------------------------------------------------- any number of collections

  type CollectionId = nat

  /** The collections there are; what one of them detaches another may take over. */
  datatype Books = Books(
    history: seq<Report>,
    lists: map<CollectionId, seq<Report>>,
    detached: multiset<Report>,
    deleted: multiset<Report>)

  const EMPTY := Books([], map[], multiset{}, multiset{})

  datatype Action = Construct(c: CollectionId) | On(c: CollectionId, op: Op)

  function LedgerOf(b: Books, c: CollectionId): Ledger
    requires c in b.lists
  {
    Ledger(b.history, b.lists[c], b.detached, b.deleted)
  }

  /** A collection is used between its construction and its destruction. */
  function Act(b: Books, action: Action): Outcome<Books> {
    match action
    case Construct(c) => if c in b.lists then CheckFailed else Ok(b.(lists := b.lists[c := []]))
    case On(c, op) =>
      if c !in b.lists then CheckFailed
      else
        var l :- Step(LedgerOf(b, c), op);
        Ok(Books(l.history, if op.Destruct? then b.lists - {c} else b.lists[c := l.list], l.detached, l.deleted))
  }

  /** All reports in the lists of all collections. */
  ghost function Listed(lists: map<CollectionId, seq<Report>>): multiset<Report>
    decreases |lists|
  {
    if lists == map[] then multiset{}
    else
      var c :| c in lists;
      multiset(lists[c]) + Listed(lists - {c})
  }

  lemma {:induction false} ListedOf(lists: map<CollectionId, seq<Report>>, c: CollectionId)
    requires c in lists
    ensures Listed(lists) == multiset(lists[c]) + Listed(lists - {c})
    decreases |lists|
  {
    var d :| d in lists && Listed(lists) == multiset(lists[d]) + Listed(lists - {d});
    if d != c {
      ListedOf(lists - {d}, c);
      ListedOf(lists - {c}, d);
      assert lists - {d} - {c} == lists - {c} - {d};
    }
  }

  predicate AllDistinct(lists: map<CollectionId, seq<Report>>) {
    forall c :: c in lists ==> DistinctIds(lists[c])
  }

  /** Every report allocated is in the list of one collection, detached or deleted, in exactly one of these and once,
      and no collection has two reports with one identifier. */
  ghost predicate Balanced(b: Books) {
    && AllDistinct(b.lists)
    && (forall k :: 0 <= k < |b.history| ==> b.history[k].address == k)
    && multiset(b.history) == Listed(b.lists) + b.detached + b.deleted
  }

  /** The books with one collection's ledger set apart from the lists of the others. */
  lemma OneApart(b: Books, c: CollectionId)
    requires Balanced(b) && c in b.lists
    ensures Accounted(LedgerOf(b, c), Listed(b.lists - {c})) && AllDistinct(b.lists - {c})
  {
    ListedOf(b.lists, c);
  }

  /** And put back, or struck off with nothing left in it. */
  lemma PutBack(l: Ledger, others: map<CollectionId, seq<Report>>, c: CollectionId)
    requires c !in others && Accounted(l, Listed(others)) && AllDistinct(others)
    ensures Balanced(Books(l.history, others[c := l.list], l.detached, l.deleted))
    ensures l.list == [] ==> Balanced(Books(l.history, others, l.detached, l.deleted))
  {
    var lists := others[c := l.list];
    ListedOf(lists, c);
    assert lists - {c} == others;
  }

  lemma ActKeepsBalanced(b: Books, action: Action)
    requires Balanced(b) && Act(b, action).Ok?
    ensures Balanced(Act(b, action).value)
  {
    var c := action.c;
    match action
    case Construct(_) => PutBack(Ledger(b.history, [], b.detached, b.deleted), b.lists, c);
    case On(_, op) =>
      OneApart(b, c);
      StepKeepsAccounted(LedgerOf(b, c), Listed(b.lists - {c}), op);
      NewBalance(b, c, Step(LedgerOf(b, c), op).value);
  }

  lemma NewBalance(b: Books, c: CollectionId, l: Ledger)
    requires c in b.lists && AllDistinct(b.lists - {c}) && Accounted(l, Listed(b.lists - {c}))
    ensures Balanced(Books(l.history, b.lists[c := l.list], l.detached, l.deleted))
    ensures l.list == [] ==> Balanced(Books(l.history, b.lists - {c}, l.detached, l.deleted))
  {
    PutBack(l, b.lists - {c}, c);
    assert (b.lists - {c})[c := l.list] == b.lists[c := l.list];
  }

  function Run(b: Books, actions: seq<Action>): Outcome<Books>
    decreases actions
  {
    if actions == [] then Ok(b)
    else
      var b' :- Act(b, actions[0]);
      Run(b', actions[1..])
  }

  lemma {:induction false} RunKeepsBalanced(b: Books, actions: seq<Action>)
    requires Balanced(b) && Run(b, actions).Ok?
    ensures Balanced(Run(b, actions).value)
    decreases actions
  {
    if actions == [] {
    } else {
      ActKeepsBalanced(b, actions[0]);
      RunKeepsBalanced(Act(b, actions[0]).value, actions[1..]);
    }
  }

  /** Addresses differ, so a report is allocated once. */
  lemma {:induction false} AllocatedOnce(history: seq<Report>, k: nat)
    requires forall i :: 0 <= i < |history| ==> history[i].address == i
    requires k < |history|
    ensures multiset(history)[history[k]] == 1
  {
    var last := |history| - 1;
    assert history == history[..last] + [history[last]];
    if k < last {
      AllocatedOnce(history[..last], k);
    } else {
      assert forall i :: 0 <= i < last ==> history[..last][i] != history[last];
    }
  }

  lemma ListedTwice(lists: map<CollectionId, seq<Report>>, c: CollectionId, d: CollectionId, r: Report)
    requires c in lists && d in lists && c != d && r in lists[c] && r in lists[d]
    ensures Listed(lists)[r] >= 2
  {
    ListedOf(lists, c);
    ListedOf(lists - {c}, d);
    assert r in multiset(lists[c]) && r in multiset(lists[d]);
  }

  /** After any run of any number of collections every report ever allocated is in exactly one place, once: in the list
      of one collection, detached, or deleted. */
  lemma EveryReportIsInOnePlace(actions: seq<Action>, k: nat)
    requires Run(EMPTY, actions).Ok? && k < |Run(EMPTY, actions).value.history|
    ensures var b := Run(EMPTY, actions).value;
            var r := b.history[k];
            && Listed(b.lists)[r] + b.detached[r] + b.deleted[r] == 1
            && (forall c, d :: c in b.lists && d in b.lists && r in b.lists[c] && r in b.lists[d] ==> c == d)
            && AllDistinct(b.lists)
  {
    RunKeepsBalanced(EMPTY, actions);
    var b := Run(EMPTY, actions).value;
    var r := b.history[k];
    AllocatedOnce(b.history, k);
    forall c, d | c in b.lists && d in b.lists && r in b.lists[c] && r in b.lists[d]
      ensures c == d
    {
      if c != d {
        ListedTwice(b.lists, c, d, r);
      }
    }
  }

  // ---------------------------------------------------------------- the collection as an object

  /** Where reports are allocated and deleted; detached is what callers hold after DetachCollection. */
  class ReportHeap {
    var history: seq<Report>
    var deleted: multiset<Report>
    ghost var detached: multiset<Report>

    constructor ()
      ensures history == [] && deleted == multiset{} && detached == multiset{}
    {
      history, deleted, detached := [], multiset{}, multiset{};
    }

    method New(id: Id) returns (r: Report)
      modifies this`history
      ensures r == Report(|old(history)|, id) && history == old(history) + [r]
    {
      r := Report(|history|, id);
      history := history + [r];
    }

    method Delete(r: Report)
      modifies this`deleted
      ensures deleted == old(deleted) + multiset{r}
    {
      deleted := deleted + multiset{r};
    }
  }

  predicate ValidIds(list: seq<Report>) {
    forall i :: 0 <= i < |list| ==> Valid(list[i].id)
  }

  class StatsCollection {
    const heap: ReportHeap
    var list: seq<Report>

    ghost function Value(): Ledger
      reads this, heap
    {
      Ledger(heap.history, list, heap.detached, heap.deleted)
    }

    constructor (heap: ReportHeap)
      ensures this.heap == heap && list == []
    {
      this.heap, list := heap, [];
    }

    method FindIndex(id: Id) returns (k: nat)
      requires Valid(id) && ValidIds(list)
      ensures k == IndexOf(list, id)
    {
      k := 0;
      while k < |list|
        invariant k <= |list|
        invariant IndexOf(list, id) == k + IndexOf(list[k..], id)
      {
        EqualsIsEquality(list[k].id, id);
        if Equals(list[k].id, id) {
          return;
        }
        k := k + 1;
      }
    }

    method Find(id: Id) returns (r: Option<Report>)
      requires Valid(id) && ValidIds(list)
      ensures r == Lookup(list, id)
    {
      var k := FindIndex(id);
      r := if k == |list| then None else Some(list[k]);
    }

    /** None stands for the check that fires if the identifier is already there. */
    method InsertNew(id: Id) returns (r: Option<Report>)
      requires Valid(id) && ValidIds(list)
      modifies this, heap`history
      ensures r.Some? <==> Step(old(Value()), Op.InsertNew(id)).Ok?
      ensures r.Some? ==> Step(old(Value()), Op.InsertNew(id)) == Ok(Value()) && Lookup(list, id) == r
    {
      var found := Find(id);
      if found.Some? {
        return None;
      }
      ghost var before := list;
      var report := heap.New(id);
      list := list + [report];
      r := Some(report);
      FoundAtTheEnd(before, report);
    }

    method FindOrAddNew(id: Id) returns (r: Option<Report>)
      requires Valid(id) && ValidIds(list)
      modifies this, heap`history
      ensures r.Some? && Step(old(Value()), Op.FindOrAddNew(id)) == Ok(Value()) && Lookup(list, id) == r
    {
      r := Find(id);
      if r.None? {
        r := InsertNew(id);
      }
    }

    method ReplaceOrAddNew(id: Id) returns (r: Option<Report>)
      requires Valid(id) && ValidIds(list)
      modifies this, heap`history, heap`deleted
      ensures r.Some? && Step(old(Value()), Op.ReplaceOrAddNew(id)) == Ok(Value())
      ensures r.value.id == id && r.value.address == |old(heap.history)|
    {
      var it := FindIndex(id);
      if it < |list| {
        var report := ReplaceAt(it);
        return Some(report);
      }
      r := InsertNew(id);
    }

    method ReplaceAt(it: nat) returns (report: Report)
      requires it < |list|
      modifies this, heap`history, heap`deleted
      ensures report == Report(|old(heap.history)|, old(list)[it].id)
      ensures list == old(list)[it := report] && heap.history == old(heap.history) + [report]
      ensures heap.deleted == old(heap.deleted) + multiset{old(list)[it]}
    {
      report := heap.New(list[it].id);
      heap.Delete(list[it]);
      list := list[it := report];
    }

    method DetachCollection() returns (reports: seq<Report>)
      modifies this, heap`detached
      ensures reports == old(list) && Step(old(Value()), Op.DetachCollection) == Ok(Value())
    {
      reports := list;
      list := [];
      heap.detached := heap.detached + multiset(reports);
    }

    /** One round of the merge loop. */
    method MergeOne(report: Report)
      requires ValidIds(list) && Valid(report.id)
      modifies this, heap`deleted
      ensures ValidIds(list) && list == Put(old(list), report)
      ensures heap.deleted == old(heap.deleted) + Displaced(old(list), report)
    {
      var it := FindIndex(report.id);
      if it == |list| {
        list := list + [report];
      } else {
        heap.Delete(list[it]);
        list := list[it := report];
      }
    }

    method MergeAll(incoming: seq<Report>)
      requires ValidIds(list) && ValidIds(incoming)
      modifies this, heap`deleted
      ensures list == Merge(old(list), incoming)
      ensures heap.deleted == old(heap.deleted) + MergeDeletes(old(list), incoming)
    {
      ghost var list0, deleted0 := list, heap.deleted;
      var n := 0;
      while n < |incoming|
        invariant 0 <= n <= |incoming|
        invariant ValidIds(list)
        invariant Merge(list, incoming[n..]) == Merge(list0, incoming)
        invariant heap.deleted + MergeDeletes(list, incoming[n..]) == deleted0 + MergeDeletes(list0, incoming)
      {
        MergeUnfold(list, incoming, n, heap.deleted);
        MergeOne(incoming[n]);
        n := n + 1;
      }
      NothingLeftToMerge(list, incoming[n..], heap.deleted);
    }

    method MergeCollection(incoming: seq<Report>)
      requires ValidIds(list) && ValidIds(incoming)
      requires multiset(incoming) <= heap.detached
      modifies this, heap`deleted, heap`detached
      ensures Step(old(Value()), Op.MergeCollection(incoming)) == Ok(Value())
    {
      MergeAll(incoming);
      heap.detached := heap.detached - multiset(incoming);
    }

    /** The destructor. */
    method Destruct()
      modifies this, heap`deleted
      ensures Step(old(Value()), Op.Destruct) == Ok(Value())
    {
      var n := 0;
      while n < |list|
        invariant 0 <= n <= |list| && list == old(list)
        invariant heap.deleted == old(heap.deleted) + multiset(list[..n])
      {
        assert list[..n + 1] == list[..n] + [list[n]];
        heap.Delete(list[n]);
        n := n + 1;
      }
      assert list[..n] == list;
      list := [];
    }
  }

  lemma MergeUnfold(list: seq<Report>, incoming: seq<Report>, n: nat, deleted: multiset<Report>)
    requires n < |incoming|
    ensures Merge(list, incoming[n..]) == Merge(Put(list, incoming[n]), incoming[n + 1..])
    ensures deleted + MergeDeletes(list, incoming[n..]) ==
            (deleted + Displaced(list, incoming[n])) + MergeDeletes(Put(list, incoming[n]), incoming[n + 1..])
  {
    assert incoming[n..][1..] == incoming[n + 1..];
  }

  lemma NothingLeftToMerge(list: seq<Report>, incoming: seq<Report>, deleted: multiset<Report>)
    requires incoming == []
    ensures Merge(list, incoming) == list && deleted + MergeDeletes(list, incoming) == deleted
  {
  }

  lemma {:induction false} FoundAtTheEnd(list: seq<Report>, r: Report)
    requires Lookup(list, r.id).None?
    ensures Lookup(list + [r], r.id) == Some(r)
  {
    var k := IndexOf(list + [r], r.id);
    assert (list + [r])[|list|] == r;
  }
}

/** The spans of one size class, and the lists, the histogram and the counter that a central
    freelist keeps about them (tcmalloc/central_freelist.h). */
module CentralSpans {
  import opened Lists

  const NUM_LISTS: nat := 8
  const BUCKETS: nat := 16
  const MAX_OBJECTS: nat := 0xFFFF
  const MAX_OBJECTS_TO_MOVE: nat := 128

  /** An object: the span it is on, and which of its objects it is. */
  datatype Obj = Obj(span: nat, idx: nat)

  /** What a span with `free` objects looks like, and the list it was last put on. */
  datatype Span = Span(free: set<nat>, longLived: bool, index: nat)

  type Spans = map<nat, Span>

  predicate Below(i: nat, n: nat) { i < n }

  /** The numbers of the objects on a span. */
  function UpTo(n: nat): set<nat> { set i: nat | i < n && Below(i, n) }

  lemma {:induction false} UpToCount(n: nat)
    ensures |UpTo(n)| == n
    decreases n
  {
    if n > 0 {
      UpToCount(n - 1);
      assert UpTo(n) == UpTo(n - 1) + {n - 1};
    }
  }

  // ----- which list a span belongs on -----

  /** With few objects on a span the lists tell apart each number of allocated objects. */
  function UsesAllBuckets(ops: nat): bool { ops <= 2 * NUM_LISTS }

  /** The list for a span with `taken` objects in use: the fewer, the higher. */
  function IndexFor(ops: nat, longLived: bool, taken: nat, bitwidth: nat): (i: nat)
    requires taken > 0 && bitwidth > 0
    ensures i < 2 * NUM_LISTS && (longLived <==> i < NUM_LISTS)
  {
    var lifetimeOffset := if longLived then 0 else NUM_LISTS;
    if UsesAllBuckets(ops) then
      if taken <= NUM_LISTS then NUM_LISTS - taken + lifetimeOffset else lifetimeOffset
    else
      NUM_LISTS - (if bitwidth < NUM_LISTS then bitwidth else NUM_LISTS) + lifetimeOffset
  }

  lemma WidthPositive(x: nat)
    ensures x > 0 <==> BitWidth(x) > 0
  {
  }

  function PowerOfTwo(k: nat): nat { if k == 0 then 1 else 2 * PowerOfTwo(k - 1) }

  lemma {:induction false} WidthBound(x: nat, k: nat)
    requires x < PowerOfTwo(k)
    ensures BitWidth(x) <= k
    decreases k
  {
    if x > 0 { WidthBound(x / 2, k - 1); }
  }

  lemma SixteenBits()
    ensures PowerOfTwo(BUCKETS) == MAX_OBJECTS + 1
  {
    assert PowerOfTwo(4) == 16;
    assert PowerOfTwo(8) == 16 * PowerOfTwo(4);
    assert PowerOfTwo(12) == 16 * PowerOfTwo(8);
    assert PowerOfTwo(16) == 16 * PowerOfTwo(12);
  }

  /** Where `Init` starts to look for a span. */
  function FirstIndex(ops: nat): (i: nat)
    ensures i <= NUM_LISTS + 1
  {
    if UsesAllBuckets(ops) then (if NUM_LISTS + 1 >= ops then NUM_LISTS + 1 - ops else 0)
    else NUM_LISTS - (if BitWidth(ops) < NUM_LISTS then BitWidth(ops) else NUM_LISTS)
  }

  /** A span of the same lifetime with fewer objects in use is on a list that is not lower,
      and long-lived spans come before all others. */
  lemma IndexOrder(ops: nat, longLived: bool, a: nat, b: nat)
    requires 0 < a <= b
    ensures BitWidth(a) > 0 && BitWidth(b) > 0
    ensures IndexFor(ops, longLived, a, BitWidth(a)) >= IndexFor(ops, longLived, b, BitWidth(b))
    ensures IndexFor(ops, true, a, BitWidth(a)) < IndexFor(ops, false, b, BitWidth(b))
    ensures IndexFor(ops, true, a, BitWidth(a)) == IndexFor(ops, false, a, BitWidth(a)) - NUM_LISTS
  {
    BitWidthMonotone(a, b);
  }

  /** No span with a free object is on a list before the first that is looked at. */
  lemma FirstIsFirst(ops: nat, longLived: bool, taken: nat)
    requires 0 < taken < ops
    ensures BitWidth(taken) > 0 && FirstIndex(ops) <= IndexFor(ops, longLived, taken, BitWidth(taken))
  {
    BitWidthMonotone(taken, ops);
  }

  // ----- a span in order -----

  function Allocated(ops: nat, s: Span): int { ops - |s.free| }

  /** Some object is in use; with a free object the span knows its list. */
  ghost predicate Good(ops: nat, s: Span) {
    s.free <= UpTo(ops) && |s.free| < ops && (s.free != {} ==> s.index == Slot(ops, s))
  }

  ghost function Slot(ops: nat, s: Span): (i: nat)
    requires |s.free| < ops
    ensures i < 2 * NUM_LISTS
  {
    WidthPositive(Allocated(ops, s));
    IndexFor(ops, s.longLived, Allocated(ops, s), BitWidth(Allocated(ops, s)))
  }

  ghost predicate AllGood(ops: nat, spans: Spans) {
    forall id :: id in spans ==> Good(ops, spans[id])
  }

  // ----- lists -----

  ghost predicate Listed(spans: Spans, lists: seq<seq<nat>>) {
    |lists| == 2 * NUM_LISTS && (forall i :: 0 <= i < |lists| ==> NoDup(lists[i])) &&
    forall i: nat, id: nat :: i < |lists| ==> (id in lists[i] <==> OnList(spans, i, id))
  }

  ghost predicate OnList(spans: Spans, i: nat, id: nat) {
    id in spans && spans[id].free != {} && spans[id].index == i
  }

  lemma ListedAdd(spans: Spans, lists: seq<seq<nat>>, id: nat, s: Span)
    requires Listed(spans, lists) && (id in spans ==> spans[id].free == {}) && s.free != {} && s.index < 2 * NUM_LISTS
    ensures Listed(spans[id := s], lists[s.index := [id] + lists[s.index]])
  {
    var more := lists[s.index := [id] + lists[s.index]];
    assert id !in lists[s.index] by { assert !OnList(spans, s.index, id); }
    forall i: nat, x: nat | i < |more| ensures x in more[i] <==> OnList(spans[id := s], i, x) {
      assert x in lists[i] <==> OnList(spans, i, x);
    }
  }

  lemma ListedDrop(spans: Spans, lists: seq<seq<nat>>, id: nat, s: Span)
    requires Listed(spans, lists) && id in spans && spans[id].free != {} && spans[id].index < 2 * NUM_LISTS && s.free == {}
    ensures id in lists[spans[id].index] && NoDup(lists[spans[id].index])
    ensures Listed(spans[id := s], lists[spans[id].index := Without(lists[spans[id].index], id)])
    ensures Listed(spans - {id}, lists[spans[id].index := Without(lists[spans[id].index], id)])
  {
    var k := spans[id].index;
    var less := lists[k := Without(lists[k], id)];
    assert OnList(spans, k, id);
    WithoutIn(lists[k], id);
    forall i: nat, x: nat | i < |less|
      ensures x in less[i] <==> OnList(spans[id := s], i, x)
      ensures x in less[i] <==> OnList(spans - {id}, i, x)
    {
      assert x in lists[i] <==> OnList(spans, i, x);
    }
  }

  lemma ListedSame(spans: Spans, lists: seq<seq<nat>>, id: nat, s: Span)
    requires Listed(spans, lists)
    requires if id in spans && spans[id].free != {} then s.free != {} && s.index == spans[id].index else s.free == {}
    ensures Listed(spans[id := s], lists) && (s.free == {} ==> Listed(spans - {id}, lists))
  {
    forall i: nat, x: nat | i < |lists|
      ensures x in lists[i] <==> OnList(spans[id := s], i, x)
      ensures s.free == {} ==> (x in lists[i] <==> OnList(spans - {id}, i, x))
    {
      assert x in lists[i] <==> OnList(spans, i, x);
    }
  }

  // ----- histogram -----

  ghost function Width(ops: nat, s: Span): nat { if |s.free| < ops then BitWidth(ops - |s.free|) else 0 }

  /** The spans for which the number of objects in use is `b + 1` bits wide. */
  ghost function Bucket(ops: nat, spans: Spans, b: nat): set<nat> {
    set id | id in spans && Width(ops, spans[id]) == b + 1
  }

  ghost predicate Counted(ops: nat, spans: Spans, histogram: seq<int>) {
    |histogram| == BUCKETS && forall b :: 0 <= b < BUCKETS ==> histogram[b] == |Bucket(ops, spans, b)|
  }

  /** What one span adds to bucket `b`. */
  ghost function Mark(ops: nat, spans: Spans, id: nat, b: nat): nat {
    if id in spans && Width(ops, spans[id]) == b + 1 then 1 else 0
  }

  lemma BucketDrop(ops: nat, spans: Spans, id: nat, b: nat)
    ensures |Bucket(ops, spans - {id}, b)| == |Bucket(ops, spans, b)| - Mark(ops, spans, id, b)
  {
    hide Width;
    var all, rest := Bucket(ops, spans, b), Bucket(ops, spans - {id}, b);
    assert rest == all - {id};
  }

  lemma BucketSet(ops: nat, spans: Spans, id: nat, s: Span, b: nat)
    ensures |Bucket(ops, spans[id := s], b)| == |Bucket(ops, spans, b)| - Mark(ops, spans, id, b) + (if Width(ops, s) == b + 1 then 1 else 0)
  {
    hide Width;
    BucketDrop(ops, spans, id, b);
    BucketDrop(ops, spans[id := s], id, b);
    assert spans[id := s] - {id} == spans - {id};
  }

  // ----- objects -----

  ghost function Objects(id: nat, free: set<nat>): set<Obj> { set x | x in free :: Obj(id, x) }

  ghost function FreeObjects(spans: Spans): set<Obj> {
    set id, x | id in spans && x in spans[id].free :: Obj(id, x)
  }

  ghost function AllObjects(ops: nat, spans: Spans): set<Obj> {
    set id, x | id in spans && x in UpTo(ops) :: Obj(id, x)
  }

  lemma {:induction false} ObjectsCount(id: nat, free: set<nat>)
    ensures |Objects(id, free)| == |free|
    decreases free
  {
    if free != {} {
      var x :| x in free;
      ObjectsCount(id, free - {x});
      assert Objects(id, free) == Objects(id, free - {x}) + {Obj(id, x)};
    }
  }

  lemma FreeDrop(spans: Spans, id: nat)
    requires id in spans
    ensures |FreeObjects(spans)| == |FreeObjects(spans - {id})| + |spans[id].free|
  {
    var rest := FreeObjects(spans - {id});
    ObjectsCount(id, spans[id].free);
    assert FreeObjects(spans) == rest + Objects(id, spans[id].free);
  }

  lemma FreeCount(spans: Spans, id: nat, s: Span)
    ensures |FreeObjects(spans[id := s])| == |FreeObjects(spans)| - (if id in spans then |spans[id].free| else 0) + |s.free|
  {
    FreeDrop(spans[id := s], id);
    assert spans[id := s] - {id} == spans - {id};
    if id in spans {
      FreeDrop(spans, id);
    } else {
      assert spans - {id} == spans;
    }
  }

  lemma AllSplit(ops: nat, spans: Spans, id: nat)
    requires id in spans
    ensures |AllObjects(ops, spans)| == |AllObjects(ops, spans - {id})| + ops && |spans - {id}| == |spans| - 1
  {
    UpToCount(ops);
    hide UpTo;
    var rest := spans - {id};
    ObjectsCount(id, UpTo(ops));
    assert AllObjects(ops, spans) == AllObjects(ops, rest) + Objects(id, UpTo(ops));
    assert rest.Keys == spans.Keys - {id};
    assert |rest| == |rest.Keys| && |spans| == |spans.Keys|;
  }

  lemma {:induction false} AllCount(ops: nat, spans: Spans)
    ensures |AllObjects(ops, spans)| == ops * |spans|
    decreases |spans|
  {
    hide UpTo;
    if spans == map[] {
      assert AllObjects(ops, spans) == {};
    } else {
      var id :| id in spans;
      AllSplit(ops, spans, id);
      AllCount(ops, spans - {id});
      assert ops * |spans| == ops * |spans - {id}| + ops;
    }
  }

  lemma FreeIn(ops: nat, spans: Spans)
    requires AllGood(ops, spans)
    ensures FreeObjects(spans) <= AllObjects(ops, spans)
  {
    hide UpTo;
    forall o | o in FreeObjects(spans) ensures o in AllObjects(ops, spans) { assert Good(ops, spans[o.span]); }
  }

  /** The objects that are not free, in number. */
  lemma InUseCount(ops: nat, spans: Spans)
    requires AllGood(ops, spans)
    ensures |AllObjects(ops, spans) - FreeObjects(spans)| + |FreeObjects(spans)| == ops * |spans|
  {
    FreeIn(ops, spans);
    AllCount(ops, spans);
    hide *;
    SubsetCount(FreeObjects(spans), AllObjects(ops, spans));
  }

  // ----- objects coming back -----

  /** Return one object; a span with no object in use any more is given up. */
  function ReturnOne(ops: nat, spans: Spans, o: Obj): (r: (Spans, seq<nat>)) {
    if o.span !in spans then (spans, [])
    else
      var s := spans[o.span];
      if |s.free| + 1 == ops then (spans - {o.span}, [o.span])
      else (spans[o.span := Settled(ops, s.(free := s.free + {o.idx}))], [])
  }

  /** The span with the list its number of objects in use asks for. */
  function Settled(ops: nat, s: Span): Span {
    var a := Allocated(ops, s);
    if a <= 0 || s.free == {} then s
    else
      WidthPositive(a);
      s.(index := IndexFor(ops, s.longLived, a, BitWidth(a)))
  }

  /** Return objects one at a time; the spans given up in order. */
  function ReturnAll(ops: nat, spans: Spans, batch: seq<Obj>): (r: (Spans, seq<nat>)) {
    if batch == [] then (spans, [])
    else
      var (mid, f) := ReturnOne(ops, spans, batch[0]);
      var (end, g) := ReturnAll(ops, mid, batch[1..]);
      (end, f + g)
  }

  /** Return all of `b` to one span at once. */
  function ReturnRun(ops: nat, spans: Spans, id: nat, b: set<nat>): (r: (Spans, seq<nat>))
    requires id in spans
  {
    var s := spans[id];
    if |s.free| + |b| == ops then (spans - {id}, [id])
    else (spans[id := Settled(ops, s.(free := s.free + b))], [])
  }

  ghost function Numbers(batch: seq<Obj>, id: nat): set<nat> {
    set o | o in batch && o.span == id :: o.idx
  }

  /** The objects of `batch` are in use. */
  ghost predicate CanReturn(ops: nat, spans: Spans, batch: seq<Obj>) {
    NoDup(batch) && forall o :: o in batch ==> o.span in spans && o.idx in UpTo(ops) && o.idx !in spans[o.span].free
  }

  lemma {:induction false} NumbersCount(batch: seq<Obj>, id: nat)
    requires NoDup(batch) && forall o :: o in batch ==> o.span == id
    ensures |Numbers(batch, id)| == |batch|
    decreases batch
  {
    if batch != [] {
      var rest := batch[1..];
      assert NoDup(rest);
      NumbersCount(rest, id);
      assert batch == [batch[0]] + rest;
      assert batch[0] !in rest;
      assert Numbers(batch, id) == Numbers(rest, id) + {batch[0].idx};
    }
  }

  /** An object comes back: the span stays in order, or had no other object in use. */
  lemma ReturnOneOk(ops: nat, spans: Spans, batch: seq<Obj>)
    requires AllGood(ops, spans) && batch != [] && CanReturn(ops, spans, batch)
    ensures var mid := ReturnOne(ops, spans, batch[0]).0; AllGood(ops, mid) && CanReturn(ops, mid, batch[1..])
    ensures var o := batch[0]; |spans[o.span].free + {o.idx}| == |spans[o.span].free| + 1 <= ops
    ensures var o := batch[0]; |spans[o.span].free| + 1 == ops ==> spans[o.span].free + {o.idx} == UpTo(ops)
  {
    var o, rest := batch[0], batch[1..];
    var s := spans[o.span];
    UpToCount(ops);
    hide UpTo;
    assert batch == [o] + rest && NoDup(rest) && o !in rest;
    SubsetCount(s.free + {o.idx}, UpTo(ops));
    var mid := ReturnOne(ops, spans, o).0;
    assert Good(ops, s);
    if |s.free| + 1 == ops {
      assert forall x :: x in rest ==> x.idx in s.free + {o.idx};
    } else {
      SettledGood(ops, s.(free := s.free + {o.idx}));
    }
  }

  lemma SettledGood(ops: nat, s: Span)
    requires s.free <= UpTo(ops) && |s.free| < ops
    ensures Good(ops, Settled(ops, s)) && Settled(ops, s).free == s.free && Settled(ops, s).longLived == s.longLived
  {
  }

  lemma NumbersSplit(batch: seq<Obj>, id: nat)
    requires batch != []
    ensures Numbers(batch, id) == Numbers(batch[1..], id) + if batch[0].span == id then {batch[0].idx} else {}
    ensures batch[0].span == id ==> batch[0].idx in Numbers(batch, id)
  {
    assert batch == [batch[0]] + batch[1..];
  }

  /** What returning `batch` amounts to for one span: it has its objects back, and is given up
      if none is in use any more. */
  ghost predicate Came(ops: nat, spans: Spans, batch: seq<Obj>, end: Spans, gone: seq<nat>, id: nat) {
    (id in spans <==> id in end || id in gone) && !(id in end && id in gone) &&
    (id in end ==> end[id].free == spans[id].free + Numbers(batch, id) && end[id].longLived == spans[id].longLived) &&
    (id in gone ==> spans[id].free + Numbers(batch, id) == UpTo(ops))
  }

  lemma {:induction false} ReturnMeans(ops: nat, spans: Spans, batch: seq<Obj>)
    requires AllGood(ops, spans) && CanReturn(ops, spans, batch)
    ensures var r := ReturnAll(ops, spans, batch);
      AllGood(ops, r.0) && NoDup(r.1) && forall id :: Came(ops, spans, batch, r.0, r.1, id)
    decreases batch
  {
    if batch != [] {
      var o, rest := batch[0], batch[1..];
      var (mid, f) := ReturnOne(ops, spans, o);
      ReturnOneOk(ops, spans, batch);
      ReturnMeans(ops, mid, rest);
      var (end, g) := ReturnAll(ops, mid, rest);
      forall id ensures Came(ops, spans, batch, end, f + g, id) {
        assert Came(ops, mid, rest, end, g, id);
        ReturnStep(ops, spans, batch, end, g, id);
      }
      assert Came(ops, mid, rest, end, g, o.span);
    }
  }

  lemma ReturnStep(ops: nat, spans: Spans, batch: seq<Obj>, end: Spans, g: seq<nat>, id: nat)
    requires batch != [] && CanReturn(ops, spans, batch)
    requires |spans[batch[0].span].free| + 1 == ops ==> spans[batch[0].span].free + {batch[0].idx} == UpTo(ops)
    requires var mid := ReturnOne(ops, spans, batch[0]).0; CanReturn(ops, mid, batch[1..]) && Came(ops, mid, batch[1..], end, g, id)
    ensures Came(ops, spans, batch, end, ReturnOne(ops, spans, batch[0]).1 + g, id)
  {
    hide UpTo, Numbers, Settled, Came;
    var o, rest := batch[0], batch[1..];
    assert o in batch;
    var s := spans[o.span];
    hide CanReturn;
    NumbersSplit(batch, id);
    if |s.free| + 1 == ops {
      GoneMore(ops, spans, rest, o);
      assert ReturnOne(ops, spans, o) == (spans - {o.span}, [o.span]);
      CameGone(ops, spans, batch, rest, o, end, g, id);
    } else {
      CameBack(ops, spans, batch, rest, o, Settled(ops, s.(free := s.free + {o.idx})), end, g, id);
      assert [] + g == g;
    }
  }

  lemma CameGone(ops: nat, spans: Spans, batch: seq<Obj>, rest: seq<Obj>, o: Obj, end: Spans, g: seq<nat>, id: nat)
    requires Came(ops, spans - {o.span}, rest, end, g, id) && o.span in spans && Numbers(rest, o.span) == {}
    requires spans[o.span].free + {o.idx} == UpTo(ops)
    requires Numbers(batch, id) == Numbers(rest, id) + if o.span == id then {o.idx} else {}
    ensures Came(ops, spans, batch, end, [o.span] + g, id)
  {
    hide UpTo, Numbers;
    var both := [o.span] + g;
    assert id in both <==> id == o.span || id in g;
  }

  lemma CameBack(ops: nat, spans: Spans, batch: seq<Obj>, rest: seq<Obj>, o: Obj, t: Span, end: Spans, g: seq<nat>, id: nat)
    requires o.span in spans && Came(ops, spans[o.span := t], rest, end, g, id)
    requires t == Settled(ops, spans[o.span].(free := spans[o.span].free + {o.idx}))
    requires Numbers(batch, id) == Numbers(rest, id) + if o.span == id then {o.idx} else {}
    ensures Came(ops, spans, batch, end, g, id)
  {
    SettledFree(ops, spans[o.span].(free := spans[o.span].free + {o.idx}));
    hide UpTo, Numbers, Settled;
  }

  lemma SettledFree(ops: nat, s: Span)
    ensures Settled(ops, s).free == s.free && Settled(ops, s).longLived == s.longLived
  {
  }

  lemma GoneMore(ops: nat, spans: Spans, rest: seq<Obj>, o: Obj)
    requires CanReturn(ops, spans - {o.span}, rest)
    ensures Numbers(rest, o.span) == {}
  {
  }

  /** The free objects afterwards, in number. */
  lemma {:induction false} ReturnCounts(ops: nat, spans: Spans, batch: seq<Obj>)
    requires AllGood(ops, spans) && CanReturn(ops, spans, batch)
    ensures var r := ReturnAll(ops, spans, batch);
      |FreeObjects(r.0)| == |FreeObjects(spans)| + |batch| - ops * |r.1| && |r.0| == |spans| - |r.1|
    decreases batch
  {
    if batch == [] {
      assert ReturnAll(ops, spans, batch) == (spans, []);
    } else {
      assert batch[0] in batch;
      hide FreeObjects, AllGood, ReturnAll, ReturnOne;
      var o, rest := batch[0], batch[1..];
      var (mid, f) := ReturnOne(ops, spans, o);
      ReturnOneOk(ops, spans, batch);
      ReturnOneCounts(ops, spans, o);
      hide CanReturn;
      ReturnCounts(ops, mid, rest);
      ReturnCons(ops, spans, batch);
      Distribute(ops, f, ReturnAll(ops, mid, rest).1);
    }
  }

  lemma ReturnCons(ops: nat, spans: Spans, batch: seq<Obj>)
    requires batch != []
    ensures var (mid, f) := ReturnOne(ops, spans, batch[0]); var r := ReturnAll(ops, mid, batch[1..]);
      ReturnAll(ops, spans, batch) == (r.0, f + r.1)
  {
  }

  lemma Distribute(a: nat, f: seq<nat>, g: seq<nat>)
    ensures a * |f + g| == a * |f| + a * |g|
  {
  }

  lemma ReturnOneCounts(ops: nat, spans: Spans, o: Obj)
    requires o.span in spans && o.idx !in spans[o.span].free
    ensures var r := ReturnOne(ops, spans, o);
      |FreeObjects(r.0)| == |FreeObjects(spans)| + 1 - ops * |r.1| && |r.0| == |spans| - |r.1|
  {
    var s := spans[o.span];
    FreeDrop(spans, o.span);
    var t := Settled(ops, s.(free := s.free + {o.idx}));
    FreeCount(spans, o.span, t);
    SettledFree(ops, s.(free := s.free + {o.idx}));
    KeysCount(spans, o.span, t);
    hide Settled, FreeObjects;
  }

  lemma KeysCount(spans: Spans, id: nat, s: Span)
    requires id in spans
    ensures |spans - {id}| == |spans| - 1 && |spans[id := s]| == |spans|
  {
    assert (spans - {id}).Keys == spans.Keys - {id};
    assert spans[id := s].Keys == spans.Keys;
    assert |spans - {id}| == |(spans - {id}).Keys| && |spans| == |spans.Keys| && |spans[id := s]| == |spans[id := s].Keys|;
  }

  /** Returning a run of objects of one span at once is the same as one at a time. */
  lemma {:induction false} RunIsOneByOne(ops: nat, spans: Spans, batch: seq<Obj>, id: nat)
    requires AllGood(ops, spans) && CanReturn(ops, spans, batch) && batch != [] && forall o :: o in batch ==> o.span == id
    ensures id in spans && ReturnAll(ops, spans, batch) == ReturnRun(ops, spans, id, Numbers(batch, id))
    decreases batch
  {
    var o, rest := batch[0], batch[1..];
    assert o in batch && batch == [o] + rest;
    RunSize(ops, spans, batch, id);
    ReturnOneOk(ops, spans, batch);
    ReturnCons(ops, spans, batch);
    NumbersSplit(batch, id);
    if rest == [] {
      RunOne(ops, spans, o);
      assert Numbers(rest, id) == {};
    } else {
      assert rest[0] in rest;
      assert rest[0].idx in Numbers(rest, id);
      NumbersCount(rest, id);
      assert o.idx !in Numbers(rest, id);
      hide AllGood, CanReturn, Numbers, UpTo, ReturnAll, ReturnOne, ReturnRun, Settled;
      RunStep(ops, spans, id, o.idx, Numbers(rest, id));
      assert o == Obj(id, o.idx);
      var mid := ReturnOne(ops, spans, o).0;
      RunIsOneByOne(ops, mid, rest, id);
      assert [] + ReturnAll(ops, mid, rest).1 == ReturnAll(ops, mid, rest).1;
    }
  }

  lemma RunSize(ops: nat, spans: Spans, batch: seq<Obj>, id: nat)
    requires AllGood(ops, spans) && CanReturn(ops, spans, batch) && batch != [] && forall o :: o in batch ==> o.span == id
    ensures id in spans && spans[id].free !! Numbers(batch, id) && |spans[id].free| + |batch| <= ops && |Numbers(batch, id)| == |batch|
  {
    assert batch[0] in batch;
    assert Good(ops, spans[id]);
    assert spans[id].free !! Numbers(batch, id) && Numbers(batch, id) <= UpTo(ops);
    UpToCount(ops);
    NumbersCount(batch, id);
    hide UpTo, Numbers, Good, AllGood, CanReturn;
    assert spans[id].free <= UpTo(ops);
    SubsetCount(spans[id].free + Numbers(batch, id), UpTo(ops));
  }

  lemma RunOne(ops: nat, spans: Spans, o: Obj)
    requires o.span in spans
    ensures var (mid, f) := ReturnOne(ops, spans, o); var r := ReturnAll(ops, mid, []);
      (r.0, f + r.1) == ReturnRun(ops, spans, o.span, {} + {o.idx})
  {
    hide Settled;
    var (mid, f) := ReturnOne(ops, spans, o);
    assert ReturnAll(ops, mid, []) == (mid, []);
    assert f + [] == f;
    assert {} + {o.idx} == {o.idx};
    assert |{o.idx}| == 1;
  }

  lemma RunStep(ops: nat, spans: Spans, id: nat, x: nat, b: set<nat>)
    requires id in spans && x !in spans[id].free && x !in b && |spans[id].free| + 1 < ops && b != {}
    requires |b + {x}| == |b| + 1 && spans[id].free !! b && |spans[id].free| + |b| + 1 <= ops
    ensures var mid := ReturnOne(ops, spans, Obj(id, x)).0;
      id in mid && ReturnRun(ops, mid, id, b) == ReturnRun(ops, spans, id, b + {x}) && ReturnOne(ops, spans, Obj(id, x)).1 == []
  {
    var s := spans[id];
    var t := s.(free := s.free + {x});
    SettledFree(ops, t);
    SettledAgain(ops, Settled(ops, t), s, t.free + b);
    hide Settled;
    assert |t.free| == |s.free| + 1;
    assert |t.free + b| == |t.free| + |b|;
    assert t.free + b == s.free + (b + {x});
    var mid := spans[id := Settled(ops, t)];
    assert ReturnOne(ops, spans, Obj(id, x)) == (mid, []);
    assert mid - {id} == spans - {id};
    if |s.free| + 1 + |b| != ops {
      var u := Settled(ops, s.(free := s.free + (b + {x})));
      assert mid[id := u] == spans[id := u];
      assert mid[id].(free := mid[id].free + b) == Settled(ops, t).(free := t.free + b);
    }
  }

  lemma SettledAgain(ops: nat, s: Span, t: Span, free: set<nat>)
    requires s.longLived == t.longLived && free != {}
    ensures |free| < ops ==> Settled(ops, s.(free := free)) == Settled(ops, t.(free := free))
  {
  }

  lemma {:induction false} ReturnAppend(ops: nat, spans: Spans, a: seq<Obj>, b: seq<Obj>)
    ensures var r := ReturnAll(ops, spans, a); var t := ReturnAll(ops, r.0, b); ReturnAll(ops, spans, a + b) == (t.0, r.1 + t.1)
    decreases a
  {
    if a == [] {
      assert a + b == b;
      var t := ReturnAll(ops, spans, b);
      assert [] + t.1 == t.1;
    } else {
      assert (a + b)[1..] == a[1..] + b;
      var (mid, f) := ReturnOne(ops, spans, a[0]);
      ReturnAppend(ops, mid, a[1..], b);
      var r := ReturnAll(ops, mid, a[1..]);
      var t := ReturnAll(ops, r.0, b);
      assert f + (r.1 + t.1) == f + r.1 + t.1;
    }
  }

  lemma {:induction false} ReturnRest(ops: nat, spans: Spans, a: seq<Obj>, b: seq<Obj>)
    requires AllGood(ops, spans) && CanReturn(ops, spans, a + b)
    ensures var mid := ReturnAll(ops, spans, a).0; AllGood(ops, mid) && CanReturn(ops, mid, b)
    decreases a
  {
    if a == [] {
      assert a + b == b;
    } else {
      assert (a + b)[0] == a[0] && (a + b)[1..] == a[1..] + b;
      ReturnOneOk(ops, spans, a + b);
      hide AllGood, CanReturn, ReturnOne;
      ReturnRest(ops, ReturnOne(ops, spans, a[0]).0, a[1..], b);
    }
  }

  ghost function InUse(ops: nat, spans: Spans): set<Obj> { AllObjects(ops, spans) - FreeObjects(spans) }

  /** Returned objects are no longer in use, and all others are where they were. */
  lemma ReturnInUse(ops: nat, spans: Spans, batch: seq<Obj>)
    requires AllGood(ops, spans) && CanReturn(ops, spans, batch)
    ensures InUse(ops, ReturnAll(ops, spans, batch).0) == InUse(ops, spans) - SetOf(batch) && SetOf(batch) <= InUse(ops, spans)
  {
    ReturnMeans(ops, spans, batch);
    var (end, gone) := ReturnAll(ops, spans, batch);
    forall o | o in batch ensures o in InUse(ops, spans) { InUseIs(ops, spans, o); }
    hide UpTo, AllGood, ReturnAll, InUse, Numbers, CanReturn;
    forall o: Obj ensures o in InUse(ops, end) <==> o in InUse(ops, spans) && o !in batch {
      assert Came(ops, spans, batch, end, gone, o.span);
      NumbersHas(batch, o);
      InUseIs(ops, end, o);
      InUseIs(ops, spans, o);
    }
  }

  lemma NumbersHas(batch: seq<Obj>, o: Obj)
    ensures o.idx in Numbers(batch, o.span) <==> o in batch
  {
  }

  lemma InUseIs(ops: nat, spans: Spans, o: Obj)
    ensures o in InUse(ops, spans) <==> o.span in spans && o.idx in UpTo(ops) && o.idx !in spans[o.span].free
  {
    hide UpTo;
  }
}

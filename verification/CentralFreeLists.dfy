/** The central freelist of a size class: spans with free objects, on lists by how many are in
    use (tcmalloc/central_freelist.h). */
module CentralFreeLists {
  import opened Lists
  import opened HintedLists
  import opened CentralSpans

  const MAX_LONG_LIVED: nat := 10

  // ----- runs of the same span in a batch -----

  ghost predicate Starts(batch: seq<nat>, j: nat) { j < |batch| && (j == 0 || batch[j - 1] != batch[j]) }

  /** `batch` has the same span at `i` and the `n - 1` places after it, and another one then. */
  ghost predicate IsRun(batch: seq<nat>, i: nat, n: nat) {
    n > 0 && i + n <= |batch| && (forall k :: i <= k < i + n ==> batch[k] == batch[i]) && (i + n < |batch| ==> batch[i + n] != batch[i])
  }

  /** `lengths` has the length of each run where the run starts. */
  ghost predicate RunsOf(batch: seq<nat>, lengths: seq<nat>) {
    |batch| <= |lengths| && forall j :: 0 <= j < |batch| && Starts(batch, j) ==> IsRun(batch, j, lengths[j])
  }

  /** How many entries equal the one before. */
  ghost function Matches(batch: seq<nat>): nat {
    if |batch| <= 1 then 0
    else Matches(batch[..|batch| - 1]) + if batch[|batch| - 2] == batch[|batch| - 1] then 1 else 0
  }

  lemma MatchesMore(batch: seq<nat>, i: nat)
    requires 0 < i < |batch|
    ensures Matches(batch[..i + 1]) == Matches(batch[..i]) + if batch[i - 1] == batch[i] then 1 else 0
  {
    assert batch[..i + 1][..i] == batch[..i];
  }

  /** Only the entries at which a run starts are written. */
  method RecordSameSpanRuns(batch: array<nat>, runLengths: array<nat>) returns (matches: nat)
    requires 0 < batch.Length <= runLengths.Length && batch != runLengths
    modifies runLengths
    ensures RunsOf(batch[..], runLengths[..])
    ensures matches == Matches(batch[..]) < batch.Length
  {
    ghost var all := batch[..];
    matches := 0;
    var runStart, last, i := 0, batch[0], 1;
    while i < batch.Length
      invariant 0 <= runStart < i <= batch.Length && batch[..] == all && last == all[runStart] && Starts(all, runStart)
      invariant forall k :: runStart <= k < i ==> all[k] == last
      invariant forall j :: 0 <= j < runStart && Starts(all, j) ==> IsRun(all, j, runLengths[j])
      invariant matches == Matches(all[..i]) < i
    {
      MatchesMore(all, i);
      if last == batch[i] {
        matches := matches + 1;
      } else {
        runLengths[runStart] := i - runStart;
        runStart, last := i, batch[i];
      }
      i := i + 1;
    }
    runLengths[runStart] := batch.Length - runStart;
    assert all[..batch.Length] == all;
  }

  // ----- the histogram -----

  ghost function Shifted(histogram: seq<int>, prev: nat, cur: nat): seq<int>
    requires |histogram| == BUCKETS && 0 < prev <= BUCKETS && 0 < cur <= BUCKETS
  {
    if prev == cur then histogram
    else
      var less := histogram[prev - 1 := histogram[prev - 1] - 1];
      less[cur - 1 := less[cur - 1] + 1]
  }

  lemma WidthOk(ops: nat, s: Span)
    requires |s.free| < ops <= MAX_OBJECTS
    ensures 0 < Width(ops, s) <= BUCKETS && Width(ops, s) == BitWidth(ops - |s.free|)
  {
    SixteenBits();
    WidthBound(ops - |s.free|, BUCKETS);
    WidthPositive(ops - |s.free|);
  }

  lemma CountedSet(ops: nat, spans: Spans, histogram: seq<int>, id: nat, s: Span)
    requires Counted(ops, spans, histogram) && id in spans && 0 < Width(ops, spans[id]) <= BUCKETS && 0 < Width(ops, s) <= BUCKETS
    ensures Counted(ops, spans[id := s], Shifted(histogram, Width(ops, spans[id]), Width(ops, s)))
  {
    hide Width, Bucket;
    var h := Shifted(histogram, Width(ops, spans[id]), Width(ops, s));
    forall b | 0 <= b < BUCKETS ensures h[b] == |Bucket(ops, spans[id := s], b)| { BucketSet(ops, spans, id, s, b); }
  }

  lemma CountedNew(ops: nat, spans: Spans, histogram: seq<int>, id: nat, s: Span)
    requires Counted(ops, spans, histogram) && id !in spans && 0 < Width(ops, s) <= BUCKETS
    ensures var w := Width(ops, s) - 1; Counted(ops, spans[id := s], histogram[w := histogram[w] + 1])
  {
    hide Width, Bucket;
    var w := Width(ops, s) - 1;
    var h := histogram[w := histogram[w] + 1];
    forall b | 0 <= b < BUCKETS ensures h[b] == |Bucket(ops, spans[id := s], b)| { BucketSet(ops, spans, id, s, b); }
  }

  lemma CountedDrop(ops: nat, spans: Spans, histogram: seq<int>, id: nat)
    requires Counted(ops, spans, histogram) && id in spans && 0 < Width(ops, spans[id]) <= BUCKETS
    ensures var w := Width(ops, spans[id]) - 1; Counted(ops, spans - {id}, histogram[w := histogram[w] - 1])
  {
    hide Width, Bucket;
    var w := Width(ops, spans[id]) - 1;
    var h := histogram[w := histogram[w] - 1];
    forall b | 0 <= b < BUCKETS ensures h[b] == |Bucket(ops, spans - {id}, b)| { BucketDrop(ops, spans, id, b); }
  }

  // ----- the counters -----

  /** The counter has the free objects and those in `transit`; spans are those requested and not returned. */
  ghost predicate Balanced(ops: nat, spans: Spans, counter: int, requested: int, returned: int, transit: set<Obj>) {
    counter == |FreeObjects(spans)| + |transit| && requested - returned == |spans| && transit <= InUse(ops, spans)
  }

  ghost function Owned(ops: nat, spans: Spans, transit: set<Obj>): set<Obj> { InUse(ops, spans) - transit }

  lemma BalancedInsert(ops: nat, spans: Spans, counter: int, requested: int, returned: int, transit: set<Obj>, batch: seq<Obj>)
    requires Balanced(ops, spans, counter, requested, returned, transit) && AllGood(ops, spans) && CanReturn(ops, spans, batch) && transit !! SetOf(batch)
    ensures var (end, gone) := ReturnAll(ops, spans, batch);
      Balanced(ops, end, counter - |gone| * ops + |batch|, requested, returned + |gone|, transit) &&
      Owned(ops, end, transit) == Owned(ops, spans, transit) - SetOf(batch)
  {
    hide FreeObjects, InUse, AllGood, CanReturn, ReturnAll;
    ReturnCounts(ops, spans, batch);
    ReturnInUse(ops, spans, batch);
    var gone := ReturnAll(ops, spans, batch).1;
    assert |gone| * ops == ops * |gone|;
  }

  /** Objects `b` of span `id` are popped. */
  lemma BalancedPop(ops: nat, spans: Spans, counter: int, requested: int, returned: int, transit: set<Obj>, id: nat, t: Span, objs: set<Obj>)
    requires Balanced(ops, spans, counter, requested, returned, transit) && id in spans && AllGood(ops, spans)
    requires t.free <= spans[id].free && objs == Objects(id, spans[id].free - t.free)
    ensures Balanced(ops, spans[id := t], counter, requested, returned, transit + objs)
    ensures Popped(ops, spans, spans[id := t], objs)
  {
    var b := spans[id].free - t.free;
    FreeCount(spans, id, t);
    ObjectsCount(id, b);
    SubsetCount(t.free, spans[id].free);
    KeysCount(spans, id, t);
    PopInUse(ops, spans, id, t);
    hide FreeObjects, InUse, AllGood, Objects;
    assert transit !! objs;
  }

  /** The objects `objs`, which were free or are new, are in use now. */
  ghost predicate Popped(ops: nat, spans: Spans, spans': Spans, objs: set<Obj>) {
    InUse(ops, spans') == InUse(ops, spans) + objs && InUse(ops, spans) !! objs
  }

  lemma PoppedNone(ops: nat, spans: Spans)
    ensures Popped(ops, spans, spans, SetOf([])) && NoDup<Obj>([]) && forall transit: set<Obj> :: transit == transit + SetOf([])
  {
  }

  /** More objects are popped. */
  lemma PoppedMore(ops: nat, spans: Spans, mid: Spans, end: Spans, a: seq<Obj>, b: seq<Obj>)
    requires Popped(ops, spans, mid, SetOf(a)) && Popped(ops, mid, end, SetOf(b)) && NoDup(a) && NoDup(b)
    ensures Popped(ops, spans, end, SetOf(a + b)) && NoDup(a + b) && SetOf(a + b) == SetOf(a) + SetOf(b)
  {
    hide InUse;
    NoDupConcat(a, b);
    hide NoDup, SetOf;
  }

  lemma PopInUse(ops: nat, spans: Spans, id: nat, t: Span)
    requires id in spans && AllGood(ops, spans) && t.free <= spans[id].free
    ensures var b := Objects(id, spans[id].free - t.free); InUse(ops, spans[id := t]) == InUse(ops, spans) + b && InUse(ops, spans) !! b
  {
    assert Good(ops, spans[id]);
    hide UpTo, InUse, AllGood;
    var b := Objects(id, spans[id].free - t.free);
    forall o: Obj ensures (o in InUse(ops, spans[id := t]) <==> o in InUse(ops, spans) || o in b) && !(o in InUse(ops, spans) && o in b) {
      InUseIs(ops, spans[id := t], o);
      InUseIs(ops, spans, o);
      assert o in b <==> o.span == id && o.idx in spans[id].free - t.free;
    }
  }

  /** A new span joins with objects already popped. */
  lemma BalancedJoin(ops: nat, spans: Spans, counter: int, requested: int, returned: int, transit: set<Obj>, id: nat, t: Span, objs: set<Obj>)
    requires Balanced(ops, spans, counter, requested, returned, transit) && id !in spans
    requires t.free <= UpTo(ops) && objs == Objects(id, UpTo(ops) - t.free)
    ensures Balanced(ops, spans[id := t], counter + ops, requested + 1, returned, transit + objs)
    ensures Popped(ops, spans, spans[id := t], objs)
  {
    hide FreeObjects, InUse, Objects, UpTo;
    UpToCount(ops);
    FreeCount(spans, id, t);
    ObjectsCount(id, UpTo(ops) - t.free);
    SubsetCount(t.free, UpTo(ops));
    KeysMore(spans, id, t);
    JoinInUse(ops, spans, id, t);
    assert transit !! objs;
  }

  lemma BalancedNew(ops: nat, spans: Spans, counter: int, requested: int, returned: int, transit: set<Obj>, id: nat, rest: set<nat>, objs: set<Obj>)
    requires Balanced(ops, spans, counter, requested, returned, transit) && id !in spans
    requires Rest(id, ops, rest, objs)
    ensures var more := spans[id := Settled(ops, Span(rest, false, 0))];
      Balanced(ops, more, counter + ops, requested + 1, returned, transit + objs) && more.Keys == spans.Keys + {id} &&
      Popped(ops, spans, more, objs)
  {
    hide Balanced, Settled, InUse, UpTo, Objects;
    var t := Settled(ops, Span(rest, false, 0));
    NewSpan(ops, rest);
    BalancedJoin(ops, spans, counter, requested, returned, transit, id, t, objs);
    KeysMore(spans, id, t);
  }

  lemma KeysMore(spans: Spans, id: nat, s: Span)
    requires id !in spans
    ensures |spans[id := s]| == |spans| + 1 && spans[id := s].Keys == spans.Keys + {id}
  {
    assert spans[id := s].Keys == spans.Keys + {id};
    assert |spans| == |spans.Keys| && |spans[id := s]| == |spans[id := s].Keys|;
  }

  lemma JoinInUse(ops: nat, spans: Spans, id: nat, t: Span)
    requires id !in spans && t.free <= UpTo(ops)
    ensures var b := Objects(id, UpTo(ops) - t.free); InUse(ops, spans[id := t]) == InUse(ops, spans) + b && InUse(ops, spans) !! b
  {
    hide UpTo, InUse;
    var b := Objects(id, UpTo(ops) - t.free);
    forall o: Obj ensures (o in InUse(ops, spans[id := t]) <==> o in InUse(ops, spans) || o in b) && !(o in InUse(ops, spans) && o in b) {
      InUseIs(ops, spans[id := t], o);
      InUseIs(ops, spans, o);
      assert o in b <==> o.span == id && o.idx in UpTo(ops) - t.free;
    }
  }

  /** Popped objects reach the caller. */
  lemma BalancedOut(ops: nat, spans: Spans, counter: int, requested: int, returned: int, transit: set<Obj>, objs: seq<Obj>)
    requires Balanced(ops, spans, counter, requested, returned, transit) && SetOf(objs) <= transit && NoDup(objs)
    ensures Balanced(ops, spans, counter - |objs|, requested, returned, transit - SetOf(objs))
    ensures Owned(ops, spans, transit - SetOf(objs)) == Owned(ops, spans, transit) + SetOf(objs)
  {
    hide FreeObjects, InUse;
    SetOfCount(objs);
    SubsetCount(SetOf(objs), transit);
  }

  /** Pop up to `n` objects, in no particular order. */
  method PopBatch(id: nat, free: set<nat>, n: nat) returns (objs: seq<Obj>, rest: set<nat>)
    requires n > 0
    ensures |objs| == if n <= |free| then n else |free|
    ensures rest <= free && |rest| == |free| - |objs| && NoDup(objs) && SetOf(objs) == Objects(id, free - rest)
  {
    objs, rest := [], free;
    while |objs| < n && rest != {}
      invariant |objs| <= n && rest <= free && |rest| == |free| - |objs| && NoDup(objs) && SetOf(objs) == Objects(id, free - rest)
      decreases |rest|
    {
      var x :| x in rest;
      assert Obj(id, x) !in objs by { assert Obj(id, x) !in Objects(id, free - rest); }
      PopOne(id, free, rest, x);
      AppendSet(objs, Obj(id, x));
      objs, rest := objs + [Obj(id, x)], rest - {x};
    }
  }

  /** All objects of a new span, up to `n` of them popped. */
  method BuildFreelist(id: nat, ops: nat, n: nat) returns (objs: seq<Obj>, rest: set<nat>)
    requires n > 0 && ops > 0
    ensures 0 < |objs| <= n && NoDup(objs) && Rest(id, ops, rest, SetOf(objs)) && (|objs| < n ==> rest == {})
  {
    UpToCount(ops);
    hide UpTo, SetOf, Objects, NoDup;
    objs, rest := PopBatch(id, UpTo(ops), n);
  }

  lemma NothingLeft(ops: nat, spans: Spans, id: nat)
    requires id !in spans && ops > 1
    ensures FreeObjects(spans[id := Settled(ops, Span({}, false, 0))]) == FreeObjects(spans)
  {
    SettledGood(ops, Span({}, false, 0));
    hide Settled;
  }

  /** Of the objects of a span `rest` is left. */
  ghost predicate Rest(id: nat, ops: nat, rest: set<nat>, objs: set<Obj>) {
    rest <= UpTo(ops) && |rest| < ops && objs == Objects(id, UpTo(ops) - rest)
  }

  lemma PopOne(id: nat, free: set<nat>, rest: set<nat>, x: nat)
    requires x in rest && rest <= free
    ensures Objects(id, free - (rest - {x})) == Objects(id, free - rest) + {Obj(id, x)}
  {
    assert free - (rest - {x}) == (free - rest) + {x};
  }

  lemma AppendSet<T>(s: seq<T>, x: T)
    ensures SetOf(s + [x]) == SetOf(s) + {x}
  {
  }

  class CentralFreeList {
    const ops: nat
    const first: nat
    const nonempty: HintedTrackerLists<nat>
    /** The spans that belong to this freelist. */
    var spans: Spans
    var histogram: seq<int>
    var counter: int
    var requested: nat
    var returned: nat

    /** Objects that threads in the middle of `RemoveRange` have popped. */
    ghost var transit: set<Obj>

    /** Lists and histogram say what the spans are like. */
    ghost predicate Sorted()
      reads this`spans, this`histogram, nonempty
    {
      ops <= MAX_OBJECTS && first == FirstIndex(ops) && nonempty.n == 2 * NUM_LISTS && nonempty.Valid() &&
      AllGood(ops, spans) && Listed(spans, nonempty.lists) && Counted(ops, spans, histogram) && (ops <= 1 ==> spans == map[])
    }

    ghost predicate Valid()
      reads this, nonempty
    {
      Sorted() && Balanced(ops, spans, counter, requested, returned, transit)
    }

    /** The objects in the hands of callers. */
    ghost function Held(): set<Obj>
      reads this`spans, this`transit
    {
      Owned(ops, spans, transit)
    }

    constructor (ops: nat)
      requires 0 < ops <= MAX_OBJECTS
      ensures Valid() && this.ops == ops && spans == map[] && transit == {} && counter == 0
    {
      var lists := new HintedTrackerLists<nat>(2 * NUM_LISTS);
      this.ops, first, nonempty := ops, FirstIndex(ops), lists;
      spans, histogram, counter, requested, returned, transit := map[], seq(BUCKETS, i => 0), 0, 0, 0, {};
      new;
      assert FreeObjects(spans) == {};
      forall b | 0 <= b < BUCKETS ensures Bucket(ops, map[], b) == {} {}
    }

    /** With no thread in the middle of something every object is counted or with a caller. */
    lemma Length()
      requires Valid() && transit == {}
      ensures counter + |Held()| == ops * |spans| && counter == |FreeObjects(spans)| && |spans| == requested - returned
    {
      hide FreeObjects, AllObjects, Counted, Listed;
      InUseCount(ops, spans);
      assert Held() == InUse(ops, spans);
    }

    /** The first span of the lists, by index; there is none exactly if no span has a free object. */
    method FirstNonEmptySpan() returns (id: Option<nat>)
      requires Sorted()
      ensures id.None? <==> forall x :: x in spans ==> spans[x].free == {}
      ensures id.Some? ==> id.value in spans && spans[id.value].free != {} &&
                           forall x :: x in spans && spans[x].free != {} ==> spans[id.value].index <= spans[x].index
    {
      ghost var i;
      id, i := nonempty.PeekLeast(first);
      forall x | x in spans && spans[x].free != {} ensures i <= spans[x].index < 2 * NUM_LISTS {
        assert Good(ops, spans[x]);
        FirstIsFirst(ops, spans[x].longLived, ops - |spans[x].free|);
        assert OnList(spans, spans[x].index, x);
        assert nonempty.lists[spans[x].index] != [];
      }
      if id.Some? { assert id.value in nonempty.lists[i]; assert OnList(spans, i, id.value); }
    }

    method RecordSpanUtil(bitwidth: nat, increase: bool)
      requires |histogram| == BUCKETS && 0 < bitwidth <= BUCKETS
      modifies this`histogram
      ensures histogram == old(histogram)[bitwidth - 1 := old(histogram)[bitwidth - 1] + if increase then 1 else -1]
    {
      histogram := histogram[bitwidth - 1 := histogram[bitwidth - 1] + if increase then 1 else -1];
    }

    /** Record that a span went from one width to another. */
    method Rewidth(prev: nat, cur: nat)
      requires |histogram| == BUCKETS && 0 < prev <= BUCKETS && 0 < cur <= BUCKETS
      modifies this`histogram
      ensures histogram == Shifted(old(histogram), prev, cur)
    {
      if cur != prev {
        RecordSpanUtil(prev, false);
        RecordSpanUtil(cur, true);
      }
    }

    /** The free objects of a span have changed: put it on the list it belongs on now, if on any. */
    method Relist(id: nat, free: set<nat>)
      requires Sorted() && id in spans && free <= UpTo(ops) && |free| < ops && free != spans[id].free
      modifies this`spans, this`histogram, nonempty
      ensures Sorted() && spans == old(spans)[id := Settled(ops, old(spans)[id].(free := free))]
    {
      hide Counted, Listed, UpTo, Settled, IndexFor, Good, Width;
      var s := spans[id];
      ghost var t := Settled(ops, s.(free := free));
      KnownGood(ops, spans, id);
      SettledGood(ops, s.(free := free));
      AllGoodSet(ops, spans, id, t);
      WidthOk(ops, s);
      WidthOk(ops, t);
      CountedSet(ops, spans, histogram, id, t);
      CountedLength(ops, spans, histogram);
      Rewidth(BitWidth(ops - |s.free|), BitWidth(ops - |free|));
      MoveOnLists(id, s, free);
    }

    /** The part of `Relist` about the lists. */
    method MoveOnLists(id: nat, s: Span, free: set<nat>)
      requires nonempty.n == 2 * NUM_LISTS && nonempty.Valid() && Listed(spans, nonempty.lists) && id in spans && spans[id] == s
      requires |free| < ops && free != s.free && (s.free != {} ==> s.index < 2 * NUM_LISTS)
      modifies this`spans, nonempty
      ensures nonempty.Valid() && Listed(spans, nonempty.lists) && spans == old(spans)[id := Settled(ops, s.(free := free))]
    {
      hide Listed, IndexFor, BitWidth, Without, NoDup;
      if free == {} {
        ListedDrop(spans, nonempty.lists, id, s.(free := {}));
        nonempty.Remove(id, s.index);
        spans := spans[id := s.(free := {})];
        return;
      }
      WidthPositive(ops - |free|);
      var index := IndexFor(ops, s.longLived, ops - |free|, BitWidth(ops - |free|));
      var t := s.(free := free, index := index);
      if s.free == {} {
        ListedAdd(spans, nonempty.lists, id, t);
        nonempty.Add(id, index);
      } else if index != s.index {
        ListedDrop(spans, nonempty.lists, id, s.(free := {}));
        nonempty.Remove(id, s.index);
        ListedAdd(spans[id := s.(free := {})], nonempty.lists, id, t);
        nonempty.Add(id, index);
        assert spans[id := s.(free := {})][id := t] == spans[id := t];
      } else {
        ListedSame(spans, nonempty.lists, id, t);
      }
      spans := spans[id := t];
    }

    /** Release objects to their span. The span is given up if no other object of it is in use. */
    method ReleaseToSpans(id: nat, b: set<nat>) returns (emptied: bool)
      requires Sorted() && id in spans && b != {} && b <= UpTo(ops) && b !! spans[id].free && |spans[id].free| + |b| <= ops
      modifies this`spans, this`histogram, nonempty
      ensures Sorted() && (spans, if emptied then [id] else []) == ReturnRun(ops, old(spans), id, b)
    {
      hide Counted, Listed, UpTo, Settled, AllGood;
      var s := spans[id];
      KnownGood(ops, spans, id);
      emptied := |s.free| + |b| == ops;
      if emptied {
        WidthOk(ops, s);
        CountedDrop(ops, spans, histogram, id);
        CountedLength(ops, spans, histogram);
        RecordSpanUtil(BitWidth(ops - |s.free|), false);
        AllGoodDrop(ops, spans, id);
        if s.free != {} {
          ListedDrop(spans, nonempty.lists, id, s.(free := {}));
          nonempty.Remove(id, s.index);
        } else {
          ListedSame(spans, nonempty.lists, id, s);
        }
        spans := spans - {id};
      } else {
        assert |s.free + b| == |s.free| + |b|;
        Relist(id, s.free + b);
      }
    }

    lemma SortedGood()
      requires Sorted()
      ensures AllGood(ops, spans)
    {
    }

    /** One turn: release the `step` objects from `i` on. */
    method ReleaseRun(batch: seq<Obj>, heads: array<nat>, i: nat, step: nat, freeCount: nat, ghost was: Spans) returns (count: nat)
      requires Sorted() && freeCount <= i && i + step <= |batch| == heads.Length && step > 0 && heads[i] == batch[i].span
      requires forall k :: i <= k < i + step ==> batch[k].span == batch[i].span
      requires AllGood(ops, was) && CanReturn(ops, was, batch) && (spans, heads[..freeCount]) == ReturnAll(ops, was, batch[..i])
      modifies this`spans, this`histogram, nonempty, heads
      ensures Sorted() && count <= i + 1 && (spans, heads[..count]) == ReturnAll(ops, was, batch[..i + step])
      ensures forall j :: i < j < |batch| ==> heads[j] == old(heads[j])
    {
      hide *;
      NextRun(ops, was, spans, batch, i, step);
      var b := set k | i <= k < i + step :: batch[k].idx;
      ghost var freed := heads[..freeCount];
      var emptied := ReleaseToSpans(heads[i], b);
      count := freeCount;
      if emptied {
        heads[count] := heads[i];
        count := count + 1;
        assert heads[..count] == freed + [batch[i].span];
      } else {
        assert freed + [] == freed;
      }
    }

    /** Release the objects of `batch`, run by run. `heads` has their spans, and takes the
        spans that are given up where they do not overwrite what is still to be read. */
    method ReleaseRuns(batch: seq<Obj>, heads: array<nat>, lengths: array<nat>) returns (freed: seq<nat>)
      requires Sorted() && CanReturn(ops, spans, batch) && heads.Length == |batch| <= lengths.Length && heads != lengths
      requires forall i :: 0 <= i < |batch| ==> heads[i] == batch[i].span
      requires RunsOf(heads[..], lengths[..])
      modifies this`spans, this`histogram, nonempty, heads
      ensures Sorted() && (spans, freed) == ReturnAll(ops, old(spans), batch)
    {
      hide *;
      ghost var all := heads[..];
      FirstStarts(all);
      SortedGood();
      var i, freeCount := 0, 0;
      ReturnNone(ops, spans, batch);
      while i < |batch|
        invariant 0 <= freeCount <= i <= |batch| && Sorted() && (i < |batch| ==> Starts(all, i))
        invariant forall j :: i <= j < |batch| ==> heads[j] == batch[j].span
        invariant (spans, heads[..freeCount]) == ReturnAll(ops, old(spans), batch[..i])
      {
        var step := lengths[i];
        RunFrom(all, lengths[..], batch, i);
        freeCount := ReleaseRun(batch, heads, i, step, freeCount, old(spans));
        i := i + step;
      }
      freed := heads[..freeCount];
      assert batch[..|batch|] == batch;
    }

    /** Take back a batch of objects from a caller. Spans without objects in use are given up. */
    method InsertRange(batch: seq<Obj>) returns (freed: seq<nat>)
      requires Valid() && 0 < |batch| <= MAX_OBJECTS_TO_MOVE && NoDup(batch) && (ops > 1 ==> forall o :: o in batch ==> o in Held())
      modifies this`spans, this`histogram, this`counter, this`returned, nonempty
      ensures Valid()
      ensures ops > 1 ==> (spans, freed) == ReturnAll(ops, old(spans), batch) && Held() == old(Held()) - SetOf(batch)
      ensures ops <= 1 ==> |freed| == |batch| && spans == old(spans) && counter == old(counter) && forall i :: 0 <= i < |batch| ==> freed[i] == batch[i].span
    {
      hide *;
      var heads := new nat[|batch|](i requires 0 <= i < |batch| => batch[i].span);
      if ops <= 1 {
        freed := heads[..];
        return;
      }
      var lengths := new nat[|batch|];
      var same := RecordSameSpanRuns(heads, lengths);
      Parts();
      HeldReturn(batch);
      BalancedInsert(ops, spans, counter, requested, returned, transit, batch);
      freed := ReleaseRuns(batch, heads, lengths);
      counter := counter - |freed| * ops;
      returned := returned + |freed|;
      counter := counter + |batch|;
      Whole();
    }

    lemma Parts()
      requires Valid()
      ensures Sorted() && Balanced(ops, spans, counter, requested, returned, transit) && AllGood(ops, spans)
      ensures Held() == Owned(ops, spans, transit)
    {
    }

    lemma Whole()
      requires true == Sorted()
      requires true == Balanced(ops, spans, counter, requested, returned, transit)
      ensures Valid() && Held() == Owned(ops, spans, transit)
    {
    }

    lemma InTransit()
      requires Valid()
      ensures transit <= InUse(ops, spans)
    {
      hide Sorted;
    }

    lemma HeldReturn(batch: seq<Obj>)
      requires Valid() && NoDup(batch) && forall o :: o in batch ==> o in Held()
      ensures CanReturn(ops, spans, batch) && transit !! SetOf(batch)
    {
      hide Sorted, UpTo, InUse;
      forall o | o in batch ensures o.span in spans && o.idx in UpTo(ops) && o.idx !in spans[o.span].free { InUseIs(ops, spans, o); }
    }

    /** Pop up to `n` objects off a span. */
    method PopFrom(id: nat, n: nat) returns (objs: seq<Obj>)
      requires Valid() && id in spans && spans[id].free != {} && n > 0
      modifies this`spans, this`histogram, this`transit, nonempty
      ensures Valid() && 0 < |objs| <= n && NoDup(objs) && spans.Keys == old(spans.Keys)
      ensures Popped(ops, old(spans), spans, SetOf(objs))
      ensures transit == old(transit) + SetOf(objs)
    {
      hide *;
      Parts();
      KnownGood(ops, spans, id);
      var rest;
      objs, rest := PopBatch(id, spans[id].free, n);
      SomeLeft(ops, spans[id].free, rest);
      ghost var t := Settled(ops, spans[id].(free := rest));
      SettledFree(ops, spans[id].(free := rest));
      BalancedPop(ops, spans, counter, requested, returned, transit, id, t, SetOf(objs));
      assert spans[id := t].Keys == spans.Keys;
      Relist(id, rest);
      transit := transit + SetOf(objs);
      Whole();
    }

    /** `RemoveRange` up to the point where it needs a new span: pop objects off the first
        spans until there are `n`, or no span has any. */
    method PopAll(n: nat) returns (objs: seq<Obj>, numSpans: nat)
      requires Valid() && n > 0
      modifies this`spans, this`histogram, this`transit, nonempty
      ensures Valid() && |objs| <= n && NoDup(objs) && spans.Keys == old(spans.Keys) && 0 < numSpans <= n
      ensures Popped(ops, old(spans), spans, SetOf(objs))
      ensures transit == old(transit) + SetOf(objs)
      ensures |objs| < n ==> FreeObjects(spans) == {}
    {
      hide *;
      objs, numSpans := [], 0;
      PoppedNone(ops, spans);
      while |objs| < n
        invariant Valid() && |objs| <= n && NoDup(objs) && spans.Keys == old(spans.Keys) && numSpans <= |objs|
        invariant |objs| > 0 ==> numSpans > 0
        invariant Popped(ops, old(spans), spans, SetOf(objs))
        invariant transit == old(transit) + SetOf(objs)
        decreases n - |objs|
      {
        numSpans := numSpans + 1;
        Parts();
        var id := FirstNonEmptySpan();
        if id.None? {
          NoneFree(spans);
          return;
        }
        ghost var mid := spans;
        var more := PopFrom(id.value, n - |objs|);
        PoppedMore(ops, old(spans), mid, spans, objs, more);
        objs := objs + more;
      }
    }

    /** `Populate` with the lock held again: `span` is the new span, if there was one to have.
        Up to `n` of its objects are popped right away. */
    method Populate(n: nat, span: Option<nat>) returns (objs: seq<Obj>)
      requires Valid() && n > 0 && ops > 1 && (span.Some? ==> span.value !in spans)
      modifies this`spans, this`histogram, this`counter, this`requested, this`transit, nonempty
      ensures Valid() && |objs| <= n && NoDup(objs)
      ensures Popped(ops, old(spans), spans, SetOf(objs))
      ensures transit == old(transit) + SetOf(objs)
      ensures |objs| < n ==> FreeObjects(spans) == FreeObjects(old(spans))
      ensures if span.None? then objs == [] && spans == old(spans) && counter == old(counter)
              else |objs| > 0 && spans.Keys == old(spans.Keys) + {span.value}
    {
      hide *;
      objs := [];
      PoppedNone(ops, spans);
      if span.None? { return; }
      objs := TakeIn(n, span.value);
    }

    /** The new span is `id`. */
    method TakeIn(n: nat, id: nat) returns (objs: seq<Obj>)
      requires Valid() && n > 0 && ops > 1 && id !in spans
      modifies this`spans, this`histogram, this`counter, this`requested, this`transit, nonempty
      ensures Valid() && 0 < |objs| <= n && NoDup(objs) && spans.Keys == old(spans.Keys) + {id} && transit == old(transit) + SetOf(objs)
      ensures Popped(ops, old(spans), spans, SetOf(objs))
      ensures |objs| < n ==> FreeObjects(spans) == FreeObjects(old(spans))
    {
      hide *;
      Parts();
      var rest;
      objs, rest := BuildFreelist(id, ops, n);
      if |objs| < n { NothingLeft(ops, spans, id); }
      BalancedNew(ops, spans, counter, requested, returned, transit, id, rest, SetOf(objs));
      Enroll(id, rest, SetOf(objs));
    }

    /** Count in a new span, all but the objects `objs` of which are free. */
    method Enroll(id: nat, rest: set<nat>, ghost objs: set<Obj>)
      requires Sorted() && ops > 1 && id !in spans && Rest(id, ops, rest, objs)
      requires Balanced(ops, spans[id := Settled(ops, Span(rest, false, 0))], counter + ops, requested + 1, returned, transit + objs)
      modifies this`spans, this`histogram, this`counter, this`requested, this`transit, nonempty
      ensures Valid() && spans == old(spans)[id := Settled(ops, Span(rest, false, 0))] && transit == old(transit) + objs
    {
      hide Sorted, UpTo, Balanced, Valid, Settled, Objects;
      Register(id, rest);
      counter := counter + ops;
      requested := requested + 1;
      transit := transit + objs;
      Whole();
    }

    /** Take a new span with the free objects `free` into the histogram and onto its list. */
    method Register(id: nat, free: set<nat>)
      requires Sorted() && id !in spans && free <= UpTo(ops) && |free| < ops && ops > 1
      modifies this`spans, this`histogram, nonempty
      ensures Sorted() && spans == old(spans)[id := Settled(ops, Span(free, false, 0))]
    {
      hide Counted, Listed, UpTo, Settled, IndexFor, Good, Width, AllGood;
      ghost var t := Settled(ops, Span(free, false, 0));
      SettledGood(ops, Span(free, false, 0));
      AllGoodSet(ops, spans, id, t);
      WidthOk(ops, t);
      CountedNew(ops, spans, histogram, id, t);
      CountedLength(ops, spans, histogram);
      var bitwidth := BitWidth(ops - |free|);
      RecordSpanUtil(bitwidth, true);
      Settling(ops, Span(free, false, 0));
      if free != {} {
        WidthPositive(ops - |free|);
        var index := IndexFor(ops, false, ops - |free|, bitwidth);
        ListedAdd(spans, nonempty.lists, id, Span(free, false, index));
        nonempty.Add(id, index);
        spans := spans[id := Span(free, false, index)];
      } else {
        ListedSame(spans, nonempty.lists, id, t);
        spans := spans[id := Span(free, false, 0)];
      }
    }

    /** The end of `RemoveRange`: the popped objects reach the caller. */
    method Deliver(objs: seq<Obj>)
      requires Valid() && NoDup(objs) && SetOf(objs) <= transit
      modifies this`counter, this`transit
      ensures Valid() && Held() == old(Held()) + SetOf(objs) && transit == old(transit) - SetOf(objs)
    {
      hide *;
      Parts();
      BalancedOut(ops, spans, counter, requested, returned, transit, objs);
      counter := counter - |objs|;
      transit := transit - SetOf(objs);
      Whole();
    }

    /** Give up to `n` objects to a caller. `span` is what the page heap has to offer if a new
        span is needed. */
    method RemoveRange(n: nat, span: Option<nat>) returns (objs: seq<Obj>)
      requires Valid() && n > 0 && (span.Some? ==> span.value !in spans)
      modifies this`spans, this`histogram, this`counter, this`requested, this`transit, nonempty
      ensures Valid() && |objs| <= n && NoDup(objs) && transit == old(transit)
      ensures ops > 1 ==> Held() == old(Held()) + SetOf(objs) && old(Held()) !! SetOf(objs)
      ensures ops > 1 && |objs| < n ==> FreeObjects(spans) == {}
      ensures ops > 1 && objs == [] ==> span.None?
      ensures ops <= 1 ==> spans == old(spans) && counter == old(counter) && objs == if span.Some? then [Obj(span.value, 0)] else []
    {
      hide *;
      if ops <= 1 {
        OneObject(if span.Some? then [Obj(span.value, 0)] else []);
        return if span.Some? then [Obj(span.value, 0)] else [];
      }
      Parts();
      InTransit();
      ghost var was := transit;
      var numSpans;
      objs, numSpans := PopAll(n);
      if |objs| < n {
        ghost var mid := spans;
        var more := Populate(n - |objs|, span);
        PoppedMore(ops, old(spans), mid, spans, objs, more);
        objs := objs + more;
      }
      assert transit == was + SetOf(objs);
      Parts();
      PoppedOut(ops, old(spans), spans, was, SetOf(objs));
      Deliver(objs);
      Parts();
    }

    // ----- long-lived spans -----

    /** A span that may move to the lists of long-lived ones. */
    ghost predicate MayAge(id: nat, aged: nat -> bool)
      reads this`spans
    {
      id in spans && spans[id].free != {} && spans[id].index >= NUM_LISTS && aged(id)
    }

    /** Up to `MAX_LONG_LIVED` spans that live long, in the order of the lists. */
    method SelectLongLived(aged: nat -> bool) returns (sel: seq<nat>)
      requires Sorted()
      ensures NoDup(sel) && |sel| <= MAX_LONG_LIVED && forall id :: id in sel ==> MayAge(id, aged)
      ensures |sel| < MAX_LONG_LIVED ==> forall id :: MayAge(id, aged) ==> id in sel
    {
      sel := [];
      var i := NUM_LISTS;
      while i < 2 * NUM_LISTS
        invariant NUM_LISTS <= i <= 2 * NUM_LISTS && NoDup(sel) && |sel| <= MAX_LONG_LIVED
        invariant forall id :: id in sel ==> MayAge(id, aged) && spans[id].index < i
        invariant |sel| < MAX_LONG_LIVED ==> forall id :: MayAge(id, aged) && spans[id].index < i ==> id in sel
      {
        sel := SelectFrom(aged, i, sel);
        i := i + 1;
      }
      forall id | MayAge(id, aged) ensures spans[id].index < i { KnownGood(ops, spans, id); }
    }

    method SelectFrom(aged: nat -> bool, i: nat, before: seq<nat>) returns (sel: seq<nat>)
      requires Sorted() && NUM_LISTS <= i < 2 * NUM_LISTS && NoDup(before) && |before| <= MAX_LONG_LIVED
      requires forall id :: id in before ==> MayAge(id, aged) && spans[id].index < i
      requires |before| < MAX_LONG_LIVED ==> forall id :: MayAge(id, aged) && spans[id].index < i ==> id in before
      ensures NoDup(sel) && |sel| <= MAX_LONG_LIVED && forall id :: id in sel ==> MayAge(id, aged) && spans[id].index < i + 1
      ensures |sel| < MAX_LONG_LIVED ==> forall id :: MayAge(id, aged) && spans[id].index < i + 1 ==> id in sel
    {
      hide AllGood, Counted;
      sel := before;
      var q := nonempty.lists[i];
      assert forall id :: id in q <==> OnList(spans, i, id);
      var j := 0;
      while j < |q|
        invariant j <= |q| && NoDup(sel) && |before| <= |sel| <= MAX_LONG_LIVED && forall id :: id in before ==> id in sel
        invariant forall id :: id in sel ==> MayAge(id, aged) && (id in before || id in q[..j])
        invariant |sel| < MAX_LONG_LIVED ==> forall k :: 0 <= k < j && aged(q[k]) ==> q[k] in sel
      {
        assert q[j] in q && q[j] !in q[..j];
        if |sel| < MAX_LONG_LIVED && aged(q[j]) {
          assert q[j] !in before by { assert OnList(spans, i, q[j]); }
          sel := sel + [q[j]];
        }
        j := j + 1;
      }
      forall id | id in sel ensures MayAge(id, aged) && spans[id].index < i + 1 {
        if id !in before { assert id in q; }
      }
      if |sel| < MAX_LONG_LIVED {
        forall id | MayAge(id, aged) && spans[id].index < i + 1 ensures id in sel {
          if spans[id].index == i {
            assert OnList(spans, i, id);
            var k :| 0 <= k < |q| && q[k] == id;
          }
        }
      }
    }

    /** Move one span. */
    method Age(id: nat)
      requires Valid() && id in spans && spans[id].free != {} && spans[id].index >= NUM_LISTS
      modifies this`spans, nonempty
      ensures Valid() && spans == old(spans)[id := Aged(old(spans)[id])] && InUse(ops, spans) == old(InUse(ops, spans))
    {
      hide *;
      Parts();
      ghost var t := Aged(spans[id]);
      AgedGood(ops, spans, histogram, id);
      BalancedAged(ops, spans, counter, requested, returned, transit, id);
      MoveDown(id);
      Whole();
    }

    method MoveDown(id: nat)
      requires Sorted() && id in spans && spans[id].free != {} && NUM_LISTS <= spans[id].index < 2 * NUM_LISTS
      requires AllGood(ops, spans[id := Aged(spans[id])]) && Counted(ops, spans[id := Aged(spans[id])], histogram)
      modifies this`spans, nonempty
      ensures Sorted() && spans == old(spans)[id := Aged(old(spans)[id])]
    {
      hide AllGood, Counted, Listed;
      var s := spans[id];
      ListedDrop(spans, nonempty.lists, id, s.(free := {}));
      nonempty.Remove(id, s.index);
      ListedAdd(spans[id := s.(free := {})], nonempty.lists, id, Aged(s));
      nonempty.Add(id, s.index - NUM_LISTS);
      assert spans[id := s.(free := {})][id := Aged(s)] == spans[id := Aged(s)];
      spans := spans[id := Aged(s)];
    }

    /** Spans that live long go to the lists that are looked at first. */
    method HandleLongLivedSpans(aged: nat -> bool) returns (sel: seq<nat>)
      requires Valid()
      modifies this`spans, nonempty
      ensures Valid() && NoDup(sel) && |sel| <= MAX_LONG_LIVED && forall id :: id in sel ==> old(MayAge(id, aged))
      ensures |sel| < MAX_LONG_LIVED ==> forall id :: old(MayAge(id, aged)) ==> id in sel
      ensures AgedAll(old(spans), spans, sel) && Held() == old(Held())
    {
      hide Sorted, Balanced, Aged, InUse;
      sel := SelectLongLived(aged);
      var k := 0;
      while k < |sel|
        invariant k <= |sel| && Valid() && InUse(ops, spans) == old(InUse(ops, spans)) && AgedAll(old(spans), spans, sel[..k])
      {
        assert sel[k] in sel && sel[k] !in sel[..k];
        Age(sel[k]);
        assert sel[..k + 1] == sel[..k] + [sel[k]];
        k := k + 1;
      }
      assert sel[..k] == sel;
    }
  }

  lemma KnownGood(ops: nat, spans: Spans, id: nat)
    requires AllGood(ops, spans) && id in spans
    ensures spans[id].free <= UpTo(ops) && |spans[id].free| < ops && (spans[id].free != {} ==> spans[id].index < 2 * NUM_LISTS)
  {
    assert Good(ops, spans[id]);
  }

  lemma AllGoodSet(ops: nat, spans: Spans, id: nat, s: Span)
    requires AllGood(ops, spans) && Good(ops, s)
    ensures AllGood(ops, spans[id := s])
  {
  }

  lemma CountedLength(ops: nat, spans: Spans, histogram: seq<int>)
    requires Counted(ops, spans, histogram)
    ensures |histogram| == BUCKETS
  {
  }

  lemma AllGoodDrop(ops: nat, spans: Spans, id: nat)
    requires AllGood(ops, spans)
    ensures AllGood(ops, spans - {id})
  {
  }

  lemma FirstStarts(all: seq<nat>)
    ensures all != [] ==> Starts(all, 0)
  {
  }

  lemma ReturnNone(ops: nat, spans: Spans, batch: seq<Obj>)
    ensures ReturnAll(ops, spans, batch[..0]) == (spans, [])
  {
  }

  lemma RunFrom(all: seq<nat>, lengths: seq<nat>, batch: seq<Obj>, i: nat)
    requires |all| == |batch| && (forall k :: 0 <= k < |all| ==> all[k] == batch[k].span) && Starts(all, i) && RunsOf(all, lengths)
    ensures lengths[i] > 0 && i + lengths[i] <= |batch| && (i + lengths[i] < |batch| ==> Starts(all, i + lengths[i]))
    ensures forall k :: i <= k < i + lengths[i] ==> batch[k].span == batch[i].span
  {
  }

  /** The next run can be released, and then one more run has been. */
  lemma NextRun(ops: nat, spans: Spans, mid: Spans, batch: seq<Obj>, i: nat, n: nat)
    requires i + n <= |batch| && AllGood(ops, spans) && CanReturn(ops, spans, batch) && mid == ReturnAll(ops, spans, batch[..i]).0
    requires n > 0 && forall k :: i <= k < i + n ==> batch[k].span == batch[i].span
    ensures var id := batch[i].span; var b := set k | i <= k < i + n :: batch[k].idx;
      id in mid && b != {} && b <= UpTo(ops) && b !! mid[id].free && |mid[id].free| + |b| <= ops &&
      var r := ReturnRun(ops, mid, id, b); ReturnAll(ops, spans, batch[..i + n]) == (r.0, ReturnAll(ops, spans, batch[..i]).1 + r.1)
  {
    hide *;
    var id, run := batch[i].span, batch[i..i + n];
    assert batch == batch[..i] + batch[i..];
    ReturnRest(ops, spans, batch[..i], batch[i..]);
    assert run == batch[i..][..n];
    CanPart(ops, mid, batch[i..], n);
    forall o | o in run ensures o.span == id {}
    RunIsOneByOne(ops, mid, run, id);
    RunSize(ops, mid, run, id);
    RunNumbers(ops, batch, i, n);
    ReturnAppend(ops, spans, batch[..i], run);
    assert batch[..i] + run == batch[..i + n];
  }

  lemma RunNumbers(ops: nat, batch: seq<Obj>, i: nat, n: nat)
    requires i + n <= |batch| && n > 0 && forall k :: i <= k < i + n ==> batch[k].span == batch[i].span
    requires forall o :: o in batch[i..i + n] ==> o.idx in UpTo(ops)
    ensures Numbers(batch[i..i + n], batch[i].span) <= UpTo(ops)
    ensures (set k | i <= k < i + n :: batch[k].idx) == Numbers(batch[i..i + n], batch[i].span)
    ensures batch[i].idx in Numbers(batch[i..i + n], batch[i].span)
  {
    var run := batch[i..i + n];
    forall k | i <= k < i + n ensures batch[k] in run && batch[k].idx in Numbers(run, batch[i].span) { assert run[k - i] == batch[k]; }
    forall x | x in Numbers(run, batch[i].span) ensures x in (set k | i <= k < i + n :: batch[k].idx) {
      var o :| o in run && o.span == batch[i].span && o.idx == x;
      var j :| 0 <= j < |run| && run[j] == o;
      assert batch[i + j] == o;
    }
  }

  lemma CanPart(ops: nat, spans: Spans, batch: seq<Obj>, n: nat)
    requires CanReturn(ops, spans, batch) && n <= |batch|
    ensures CanReturn(ops, spans, batch[..n]) && forall o :: o in batch[..n] ==> o.idx in UpTo(ops)
  {
  }

  lemma SomeLeft(ops: nat, free: set<nat>, rest: set<nat>)
    requires free <= UpTo(ops) && |free| < ops && rest <= free && |rest| < |free|
    ensures rest <= UpTo(ops) && |rest| < ops && rest != free
  {
  }

  lemma NewSpan(ops: nat, rest: set<nat>)
    requires rest <= UpTo(ops) && |rest| < ops
    ensures Settled(ops, Span(rest, false, 0)).free == rest <= UpTo(ops)
  {
  }

  lemma Settling(ops: nat, s: Span)
    requires |s.free| < ops
    ensures if s.free == {} then Settled(ops, s) == s
            else BitWidth(ops - |s.free|) > 0 && Settled(ops, s) == s.(index := IndexFor(ops, s.longLived, ops - |s.free|, BitWidth(ops - |s.free|)))
  {
  }

  lemma NoneFree(spans: Spans)
    requires forall x :: x in spans ==> spans[x].free == {}
    ensures FreeObjects(spans) == {}
  {
  }

  lemma OneObject(s: seq<Obj>)
    requires |s| <= 1
    ensures NoDup(s)
  {
  }

  /** Objects popped and delivered are new to callers. */
  lemma PoppedOut(ops: nat, spans: Spans, spans': Spans, transit: set<Obj>, objs: set<Obj>)
    requires Popped(ops, spans, spans', objs) && transit <= InUse(ops, spans)
    ensures Owned(ops, spans', transit + objs) == Owned(ops, spans, transit) && Owned(ops, spans, transit) !! objs
    ensures transit + objs - objs == transit && objs <= transit + objs
  {
    hide InUse;
  }

  function Aged(s: Span): Span { if s.index >= NUM_LISTS then s.(longLived := true, index := s.index - NUM_LISTS) else s }

  ghost predicate AgedAll(spans: Spans, spans': Spans, sel: seq<nat>) {
    spans'.Keys == spans.Keys && forall id :: id in spans ==> spans'[id] == if id in sel then Aged(spans[id]) else spans[id]
  }

  lemma AgedGood(ops: nat, spans: Spans, histogram: seq<int>, id: nat)
    requires AllGood(ops, spans) && Counted(ops, spans, histogram) && id in spans && spans[id].free != {} && spans[id].index >= NUM_LISTS && ops <= MAX_OBJECTS
    ensures AllGood(ops, spans[id := Aged(spans[id])]) && Counted(ops, spans[id := Aged(spans[id])], histogram) && spans[id].index < 2 * NUM_LISTS
  {
    var s := spans[id];
    assert Good(ops, s);
    var a := ops - |s.free|;
    IndexOrder(ops, false, a, a);
    assert Good(ops, Aged(s));
    AllGoodSet(ops, spans, id, Aged(s));
    WidthOk(ops, s);
    hide AllGood, Counted, Good, Width;
    WidthSame(ops, s);
    CountedSet(ops, spans, histogram, id, Aged(s));
  }

  lemma WidthSame(ops: nat, s: Span)
    ensures Width(ops, Aged(s)) == Width(ops, s)
  {
  }

  lemma BalancedAged(ops: nat, spans: Spans, counter: int, requested: int, returned: int, transit: set<Obj>, id: nat)
    requires Balanced(ops, spans, counter, requested, returned, transit) && id in spans
    ensures Balanced(ops, spans[id := Aged(spans[id])], counter, requested, returned, transit)
    ensures InUse(ops, spans[id := Aged(spans[id])]) == InUse(ops, spans)
  {
    var t := Aged(spans[id]);
    FreeCount(spans, id, t);
    KeysCount(spans, id, t);
    hide FreeObjects, InUse;
    forall o: Obj ensures o in InUse(ops, spans[id := t]) <==> o in InUse(ops, spans) {
      InUseIs(ops, spans[id := t], o);
      InUseIs(ops, spans, o);
    }
  }
}

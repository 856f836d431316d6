/** All interleavings of threads that use one central freelist. A thread that needs a new span
    drops the lock in the middle of `RemoveRange` (tcmalloc/central_freelist.h). */
module CentralRuns {
  import opened Lists
  import opened CentralSpans
  import opened CentralFreeLists

  datatype Step =
    | Remove(thread: nat, n: nat)
    | Resume(thread: nat, span: Option<nat>)
    | Insert(batch: seq<Obj>)
    | Age(aged: nat -> bool)

  /** A thread that waits for a new span, with the objects it has popped. */
  datatype Waiting = Waiting(objs: seq<Obj>, n: nat)

  type Hands = map<nat, seq<Obj>>

  /** The sequences have the elements of `s`, each once. */
  ghost predicate Split(m: Hands, s: set<Obj>) {
    (forall t :: t in m ==> NoDup(m[t]) && SetOf(m[t]) <= s) &&
    (forall t, u :: t in m && u in m && t != u ==> SetOf(m[t]) !! SetOf(m[u])) &&
    (forall o :: o in s ==> exists t :: Has(m, t, o))
  }

  predicate Has(m: Hands, t: nat, o: Obj) { t in m && o in m[t] }

  ghost function Popped(waiting: map<nat, Waiting>): Hands { map t | t in waiting :: waiting[t].objs }

  function In(m: Hands, t: nat): seq<Obj> { if t in m then m[t] else [] }

  lemma SplitAdd(m: Hands, s: set<Obj>, t: nat, objs: seq<Obj>)
    requires Split(m, s) && NoDup(objs) && SetOf(objs) !! s
    ensures Split(m[t := In(m, t) + objs], s + SetOf(objs))
  {
    var m' := m[t := In(m, t) + objs];
    NoDupConcat(In(m, t), objs);
    forall o | o in s + SetOf(objs) ensures exists u :: Has(m', u, o) {
      if o in s {
        var u :| Has(m, u, o);
        assert Has(m', u, o);
      } else {
        assert Has(m', t, o);
      }
    }
  }

  lemma SplitSet(m: Hands, s: set<Obj>, t: nat, gone: seq<Obj>, rest: seq<Obj>)
    requires Split(m, s) && t in m && m[t] == gone + rest
    ensures Split(m[t := rest], s - SetOf(gone)) && SetOf(gone) <= s && NoDup(gone)
    ensures rest == [] ==> Split(m - {t}, s - SetOf(gone))
  {
    hide NoDup;
    Halves(gone, rest);
    var kept, without := m[t := rest], m - {t};
    forall o | o in s - SetOf(gone) ensures (exists u :: Has(kept, u, o)) && (rest == [] ==> exists u :: Has(without, u, o)) {
      var u :| Has(m, u, o);
      assert u == t ==> o in gone + rest;
      assert Has(kept, u, o);
      assert rest == [] ==> Has(without, u, o);
    }
  }

  lemma Halves(a: seq<Obj>, b: seq<Obj>)
    requires NoDup(a + b)
    ensures NoDup(a) && NoDup(b) && SetOf(a) !! SetOf(b) && SetOf(a + b) == SetOf(a) + SetOf(b)
  {
    assert forall i :: 0 <= i < |a| ==> (a + b)[i] == a[i];
    assert forall i :: 0 <= i < |b| ==> (a + b)[|a| + i] == b[i];
  }

  /** What callers have and what waiting threads have popped are the objects in use. */
  ghost predicate Consistent(c: CentralFreeList, hands: Hands, waiting: map<nat, Waiting>)
    reads c, c.nonempty
  {
    c.Valid() && c.ops > 1 && Split(hands, c.Held()) && Split(Popped(waiting), c.transit) &&
    forall t :: t in waiting ==> |waiting[t].objs| < waiting[t].n
  }

  lemma PoppedSet(waiting: map<nat, Waiting>, t: nat, w: Waiting)
    ensures Popped(waiting[t := w]) == Popped(waiting)[t := w.objs] && Popped(waiting - {t}) == Popped(waiting) - {t}
  {
  }

  /** Start to take objects; a thread that gets less than it wants goes to ask for a new span. */
  method RemoveStep(c: CentralFreeList, hands: Hands, waiting: map<nat, Waiting>, t: nat, n: nat)
    returns (hands': Hands, waiting': map<nat, Waiting>)
    requires Consistent(c, hands, waiting)
    modifies c, c.nonempty
    ensures Consistent(c, hands', waiting')
  {
    hide Split, Popped, CentralFreeList.Valid, CentralFreeList.Held, SetOf, NoDup, CentralFreeLists.Popped;
    hands', waiting' := hands, waiting;
    if t in waiting || n == 0 { return; }
    c.Parts();
    c.InTransit();
    ghost var was, spans := c.transit, c.spans;
    var objs, numSpans := c.PopAll(n);
    c.Parts();
    PoppedOut(c.ops, spans, c.spans, was, SetOf(objs));
    OutOfSight(c.ops, spans, c.spans, was, SetOf(objs));
    if |objs| == n {
      c.Deliver(objs);
      SplitAdd(hands, old(c.Held()), t, objs);
      hands' := hands[t := In(hands, t) + objs];
    } else {
      SplitNew(waiting, was, t, Waiting(objs, n));
      waiting' := waiting[t := Waiting(objs, n)];
    }
  }

  lemma OutOfSight(ops: nat, spans: Spans, spans': Spans, transit: set<Obj>, objs: set<Obj>)
    requires CentralFreeLists.Popped(ops, spans, spans', objs) && transit <= InUse(ops, spans)
    ensures objs !! transit
  {
    hide InUse;
  }

  lemma SplitNew(waiting: map<nat, Waiting>, s: set<Obj>, t: nat, w: Waiting)
    requires Split(Popped(waiting), s) && t !in waiting && NoDup(w.objs) && SetOf(w.objs) !! s
    ensures Split(Popped(waiting[t := w]), s + SetOf(w.objs))
  {
    SplitAdd(Popped(waiting), s, t, w.objs);
    PoppedSet(waiting, t, w);
    assert [] + w.objs == w.objs;
  }

  /** A waiting thread has the lock again, with a new span or without. */
  method ResumeStep(c: CentralFreeList, hands: Hands, waiting: map<nat, Waiting>, t: nat, span: Option<nat>)
    returns (hands': Hands, waiting': map<nat, Waiting>)
    requires Consistent(c, hands, waiting)
    modifies c, c.nonempty
    ensures Consistent(c, hands', waiting')
  {
    hide Split, Popped, CentralFreeList.Valid, CentralFreeList.Held, SetOf, NoDup, CentralFreeLists.Popped;
    hands', waiting' := hands, waiting;
    if t !in waiting { return; }
    var got := if span.Some? && span.value in c.spans then None else span;
    var w := waiting[t];
    c.Parts();
    c.InTransit();
    ghost var was, spans := c.transit, c.spans;
    var more := c.Populate(w.n - |w.objs|, got);
    c.Parts();
    PoppedOut(c.ops, spans, c.spans, was, SetOf(more));
    OutOfSight(c.ops, spans, c.spans, was, SetOf(more));
    Collect(hands, waiting, old(c.Held()), was, t, more);
    var objs := w.objs + more;
    c.Deliver(objs);
    hands' := hands[t := In(hands, t) + objs];
    waiting' := waiting - {t};
  }

  lemma Collect(hands: Hands, waiting: map<nat, Waiting>, held: set<Obj>, transit: set<Obj>, t: nat, more: seq<Obj>)
    requires Split(hands, held) && Split(Popped(waiting), transit) && t in waiting && held !! transit
    requires NoDup(more) && SetOf(more) !! held && SetOf(more) !! transit
    ensures var objs := waiting[t].objs + more;
      NoDup(objs) && SetOf(objs) <= transit + SetOf(more) && Split(hands[t := In(hands, t) + objs], held + SetOf(objs)) &&
      Split(Popped(waiting - {t}), transit + SetOf(more) - SetOf(objs))
  {
    var mine := waiting[t].objs;
    var objs := mine + more;
    PoppedSet(waiting, t, waiting[t]);
    assert mine == mine + [];
    SplitSet(Popped(waiting), transit, t, mine, []);
    NoDupConcat(mine, more);
    hide NoDup, SetOf;
    SplitAdd(hands, held, t, objs);
    assert transit + SetOf(more) - SetOf(objs) == transit - SetOf(mine);
  }

  /** `s` without the objects of `batch`. */
  function Except(s: seq<Obj>, batch: seq<Obj>): seq<Obj> {
    if s == [] then [] else if s[0] in batch then Except(s[1..], batch) else [s[0]] + Except(s[1..], batch)
  }

  lemma {:induction false} ExceptIs(s: seq<Obj>, batch: seq<Obj>)
    requires NoDup(s)
    ensures NoDup(Except(s, batch)) && SetOf(Except(s, batch)) == SetOf(s) - SetOf(batch)
    decreases s
  {
    if s != [] {
      assert s == [s[0]] + s[1..];
      Halves([s[0]], s[1..]);
      ExceptIs(s[1..], batch);
      if s[0] !in batch { NoDupConcat([s[0]], Except(s[1..], batch)); }
    }
  }

  /** What is left in all hands when the objects of a batch are gone, whoever had them. */
  function Left(m: Hands, batch: seq<Obj>): Hands { map t | t in m :: Except(m[t], batch) }

  lemma SplitLess(m: Hands, s: set<Obj>, batch: seq<Obj>)
    requires Split(m, s)
    ensures Split(Left(m, batch), s - SetOf(batch))
  {
    var left := Left(m, batch);
    forall t | t in m ensures NoDup(left[t]) && SetOf(left[t]) == SetOf(m[t]) - SetOf(batch) { ExceptIs(m[t], batch); }
    hide NoDup, Left;
    forall o | o in s - SetOf(batch) ensures exists t :: Has(left, t, o) {
      var t :| Has(m, t, o);
      assert o in SetOf(left[t]);
      assert Has(left, t, o);
    }
  }

  /** Every object of `batch` is in somebody's hands. */
  predicate InHands(m: Hands, batch: seq<Obj>) { forall o :: o in batch ==> Somebody(m, o) }

  predicate Somebody(m: Hands, o: Obj) { exists t :: t in m && Has(m, t, o) }

  lemma BatchHeld(m: Hands, s: set<Obj>, batch: seq<Obj>)
    requires Split(m, s) && InHands(m, batch)
    ensures SetOf(batch) <= s && forall o :: o in batch ==> o in s
  {
    forall o | o in batch ensures o in s {
      assert Somebody(m, o);
      var t :| t in m && Has(m, t, o);
      assert o in SetOf(m[t]);
    }
  }

  /** A batch comes back: any objects, in any order, from anybody. */
  method InsertStep(c: CentralFreeList, hands: Hands, waiting: map<nat, Waiting>, batch: seq<Obj>) returns (hands': Hands)
    requires Consistent(c, hands, waiting)
    modifies c, c.nonempty
    ensures Consistent(c, hands', waiting)
    ensures batch != [] && |batch| <= MAX_OBJECTS_TO_MOVE && NoDup(batch) && InHands(hands, batch) ==>
              hands' == Left(hands, batch) && c.Held() == old(c.Held()) - SetOf(batch)
  {
    hide Split, Popped, CentralFreeList.Valid, CentralFreeList.Held, NoDup, Left, InHands, SetOf;
    hands' := hands;
    if batch == [] || |batch| > MAX_OBJECTS_TO_MOVE || !NoDup(batch) || !InHands(hands, batch) { return; }
    BatchHeld(hands, c.Held(), batch);
    SplitLess(hands, c.Held(), batch);
    var freed := c.InsertRange(batch);
    hands' := Left(hands, batch);
  }

  method AgeStep(c: CentralFreeList, ghost hands: Hands, ghost waiting: map<nat, Waiting>, aged: nat -> bool)
    requires Consistent(c, hands, waiting)
    modifies c, c.nonempty
    ensures Consistent(c, hands, waiting)
  {
    hide Split, Popped, CentralFreeList.Valid, CentralFreeList.Held;
    var sel := c.HandleLongLivedSpans(aged);
  }

  /** Any interleaving keeps every object in exactly one place, and the counter right. */
  method Run(c: CentralFreeList, hands: Hands, waiting: map<nat, Waiting>, steps: seq<Step>)
    returns (hands': Hands, waiting': map<nat, Waiting>)
    requires Consistent(c, hands, waiting)
    modifies c, c.nonempty
    ensures Consistent(c, hands', waiting')
    ensures waiting' == map[] ==> c.counter + |c.Held()| == c.ops * |c.spans|
  {
    hide Consistent;
    hands', waiting' := hands, waiting;
    var i := 0;
    while i < |steps|
      invariant i <= |steps| && Consistent(c, hands', waiting')
    {
      match steps[i] {
        case Remove(t, n) => hands', waiting' := RemoveStep(c, hands', waiting', t, n);
        case Resume(t, span) => hands', waiting' := ResumeStep(c, hands', waiting', t, span);
        case Insert(batch) => hands' := InsertStep(c, hands', waiting', batch);
        case Age(aged) => AgeStep(c, hands', waiting', aged);
      }
      i := i + 1;
    }
    if waiting' == map[] { AllBack(c, hands'); }
  }

  lemma AllBack(c: CentralFreeList, hands: Hands)
    requires Consistent(c, hands, map[])
    ensures c.counter + |c.Held()| == c.ops * |c.spans|
  {
    hide CentralFreeList.Valid, CentralFreeList.Held;
    assert Popped(map[]) == map[];
    assert forall t, o :: !Has(Popped(map[]), t, o);
    assert c.transit == {};
    c.Length();
  }
}

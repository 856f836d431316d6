/** The redundant counters of the filler, as sums over the trackers on its lists. */
module FillerBooks {
  import opened Lists
  import opened RangeTrackers
  import opened PageTrackers
  import opened FillerLists

  /** One number for sparsely and one for densely accessed spans. */
  datatype PerType = PerType(sparse: nat, dense: nat) {
    function At(d: bool): nat { if d then dense else sparse }

    function With(d: bool, v: nat): PerType { if d then this.(dense := v) else this.(sparse := v) }
  }

  function One(d: bool, v: nat): PerType { PerType(0, 0).With(d, v) }

  datatype Counts = Counts(size: nat, inUse: PerType, unmapped: nat, usedReleased: PerType, usedPartial: PerType)

  function AddTypes(a: PerType, b: PerType): PerType { PerType(a.sparse + b.sparse, a.dense + b.dense) }

  function Add(a: Counts, b: Counts): Counts {
    Counts(a.size + b.size, AddTypes(a.inUse, b.inUse), a.unmapped + b.unmapped,
           AddTypes(a.usedReleased, b.usedReleased), AddTypes(a.usedPartial, b.usedPartial))
  }

  const ZERO := Counts(0, PerType(0, 0), 0, PerType(0, 0), PerType(0, 0))

  /** What being on a partly or fully released list adds. */
  ghost function OnList(s: State, mode: bool): Counts {
    var f := FamilyOf(s, mode);
    Counts(0, PerType(0, 0), 0,
           if f.AllReleased? then One(f.dense, s.free.nused) else PerType(0, 0),
           if f.Partial? then One(f.dense, s.free.nused) else PerType(0, 0))
  }

  /** What a tracker counts for wherever it is. */
  ghost function Loose(s: State): Counts {
    Counts(1, One(s.flags.dense, s.free.nused), s.releasedCount, PerType(0, 0), PerType(0, 0))
  }

  ghost function Tally(order: seq<PageTracker>, views: Views, mode: bool): Counts
    requires forall t :: t in order ==> t in views
  {
    if order == [] then ZERO
    else Add(Add(Loose(views[order[0]]), OnList(views[order[0]], mode)), Tally(order[1..], views, mode))
  }

  lemma {:induction false} TallySize(order: seq<PageTracker>, views: Views, mode: bool)
    requires forall t :: t in order ==> t in views
    ensures Tally(order, views, mode).size == |order|
    decreases order
  {
    if order != [] { TallySize(order[1..], views, mode); }
  }

  lemma AddComm(a: Counts, b: Counts, c: Counts)
    ensures Add(Add(a, b), c) == Add(a, Add(b, c)) && Add(a, b) == Add(b, a)
  {
  }

  lemma {:induction false} TallyTake(order: seq<PageTracker>, views: Views, mode: bool, t: PageTracker)
    requires (forall x :: x in order ==> x in views) && t in order && NoDup(order)
    ensures (forall x :: x in Without(order, t) ==> x in views)
    ensures Tally(order, views, mode) == Add(Add(Loose(views[t]), OnList(views[t], mode)), Tally(Without(order, t), views, mode))
    decreases order
  {
    hide Add, Loose, OnList;
    WithoutIn(order, t);
    if order[0] != t {
      assert NoDup(order[1..]);
      TallyTake(order[1..], views, mode, t);
      var w := Without(order, t);
      assert w == [order[0]] + Without(order[1..], t);
      assert w[1..] == Without(order[1..], t);
      var a, b, c := Add(Loose(views[order[0]]), OnList(views[order[0]], mode)), Add(Loose(views[t]), OnList(views[t], mode)),
                     Tally(Without(order[1..], t), views, mode);
      AddComm(a, b, c);
      AddComm(b, a, c);
    }
  }

  lemma {:induction false} TallyFrame(order: seq<PageTracker>, views: Views, views': Views, mode: bool)
    requires forall t :: t in order ==> t in views && t in views' && views'[t] == views[t]
    ensures Tally(order, views', mode) == Tally(order, views, mode)
    decreases order
  {
    if order != [] { TallyFrame(order[1..], views, views', mode); }
  }

  lemma TallyPut(order: seq<PageTracker>, views: Views, mode: bool, t: PageTracker)
    requires (forall x :: x in order ==> x in views) && t in views
    ensures Tally([t] + order, views, mode) == Add(Add(Loose(views[t]), OnList(views[t], mode)), Tally(order, views, mode))
  {
    assert ([t] + order)[1..] == order;
  }
}

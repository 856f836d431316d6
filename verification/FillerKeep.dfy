/** Where the trackers known to the filler are: on a list, waiting to be fetched after
    they became empty under a treatment, or in the hands of some operation. */
module FillerKeep {
  import opened Lists
  import opened RangeTrackers
  import opened PageTrackers
  import opened FillerLists
  import opened FillerBooks

  /** Nothing allocated. */
  ghost predicate Idle(s: State) { Sane(s) && s.free.nused == 0 }

  /** Trackers under treatment carry a hold, and only they; only a tracker chosen for
      collapse is being collapsed. */
  ghost predicate Holds(views: Views, sampled: set<PageTracker>, chosen: set<PageTracker>) {
    sampled <= views.Keys && chosen <= views.Keys &&
    forall t :: t in views ==>
      (views[t].flags.sampleHold <==> t in sampled) && (views[t].flags.collapseHold <==> t in chosen) &&
      (views[t].flags.collapsing ==> t in chosen)
  }

  ghost predicate AllIdle(parked: set<PageTracker>, views: Views) {
    forall t :: t in parked && t in views ==> Idle(views[t])
  }

  /** `order` are the trackers on lists, `freed` the empty ones waiting, `parked` those in
      the hands of an operation. */
  ghost predicate Kept(order: seq<PageTracker>, freed: seq<PageTracker>, parked: set<PageTracker>,
                       views: Views, b: Board, mode: bool) {
    NoDup(order) && NoDup(freed) && Placed(SetOf(order), views, b, mode) &&
    SetOf(order) !! SetOf(freed) && SetOf(order) !! parked && SetOf(freed) !! parked &&
    SetOf(order) + SetOf(freed) + parked == views.Keys &&
    (forall t :: t in freed ==> Idle(views[t])) && (forall t :: t in parked ==> Sane(views[t]))
  }

  lemma FamilyCases(f: Family)
    ensures f in {Donated, Regular(false), Regular(true), Partial(false), Partial(true), AllReleased(false), AllReleased(true)}
  {
    match f
    case Donated =>
    case Regular(d) => if d {}
    case Partial(d) => if d {}
    case AllReleased(d) => if d {}
  }

  lemma KeptEmpty(b: Board, mode: bool)
    requires Shaped(b) && forall f: Family, i: nat :: f in b && i < |b[f]| ==> b[f][i] == []
    ensures Kept([], [], {}, map[], b, mode)
  {
  }

  ghost function Undonated(s: State): State { s.(flags := s.flags.(donated := false)) }

  ghost function Redonated(s: State): State { s.(flags := s.flags.(donated := true)) }

  lemma RedonatedHome(s: State, mode: bool)
    requires InUse(Redonated(s))
    ensures Sane(Redonated(s)) && Redonated(s).free == s.free && Home(Redonated(s), mode, Donated, s.free.longest)
  {
    InUseBounds(Redonated(s));
  }

  lemma HomeOf(s: State, mode: bool)
    requires InUse(s)
    ensures Sane(s) && 0 < s.free.nallocs <= PAGES && Home(s, mode, FamilyOf(s, mode), IndexOf(s))
  {
    InUseBounds(s);
  }

  lemma OrderKnown(order: seq<PageTracker>, freed: seq<PageTracker>, parked: set<PageTracker>, views: Views, b: Board, mode: bool,
                   t: PageTracker)
    requires Kept(order, freed, parked, views, b, mode) && t in order
    ensures t in views && t !in parked && InUse(views[t]) && 0 < views[t].free.nallocs <= PAGES
    ensures Home(views[t], mode, FamilyOf(views[t], mode), IndexOf(views[t]))
  {
    assert t in SetOf(order);
    assert Listed(views[t], b, mode, t);
  }

  lemma OrderInViews(order: seq<PageTracker>, freed: seq<PageTracker>, parked: set<PageTracker>, views: Views, b: Board, mode: bool)
    requires Kept(order, freed, parked, views, b, mode)
    ensures NoDup(order) && forall t :: t in order ==> t in views
  {
    forall t | t in order ensures t in views { assert t in SetOf(order); }
  }

  lemma SetOfWithout(s: seq<PageTracker>, t: PageTracker)
    requires NoDup(s)
    ensures NoDup(Without(s, t)) && SetOf(Without(s, t)) == SetOf(s) - {t}
  {
    WithoutIn(s, t);
    forall x | x in SetOf(Without(s, t)) ensures x in SetOf(s) - {t} {
    }
    forall x | x in SetOf(s) - {t} ensures x in SetOf(Without(s, t)) {
    }
  }

  lemma KeptTake(order: seq<PageTracker>, freed: seq<PageTracker>, parked: set<PageTracker>, views: Views, b: Board, mode: bool,
                 t: PageTracker, f: Family, i: nat)
    requires Kept(order, freed, parked, views, b, mode) && t in order && t in views && Home(views[t], mode, f, i)
    ensures On(b, t, f, i) && NoDup(b[f][i]) && Kept(Without(order, t), freed, parked + {t}, views, Unlisted(b, f, i, t), mode)
  {
    hide Placed, Unlisted, Home;
    assert t in SetOf(order);
    HomeSane(views[t], mode, f, i);
    OnNoDup(SetOf(order), views, b, mode, t, f, i);
    TakeOff(SetOf(order), views, b, mode, t, f, i);
    SetOfWithout(order, t);
  }

  lemma HomeSane(s: State, mode: bool, f: Family, i: nat)
    requires Home(s, mode, f, i)
    ensures Sane(s)
  {
  }

  lemma OnNoDup(listed: set<PageTracker>, views: Views, b: Board, mode: bool, t: PageTracker, f: Family, i: nat)
    requires Placed(listed, views, b, mode) && t in listed && t in views && Home(views[t], mode, f, i)
    ensures On(b, t, f, i) && NoDup(b[f][i])
  {
    assert Listed(views[t], b, mode, t);
  }

  lemma KeptPut(order: seq<PageTracker>, freed: seq<PageTracker>, parked: set<PageTracker>, views: Views, b: Board, mode: bool,
                t: PageTracker, f: Family, i: nat)
    requires Kept(order, freed, parked, views, b, mode) && t in parked && t in views && Home(views[t], mode, f, i)
    ensures f in b && i < |b[f]| && Kept([t] + order, freed, parked - {t}, views, Prepended(b, f, i, t), mode)
  {
    hide Placed, Prepended, Home;
    PutOn(SetOf(order), views, b, mode, t, f, i);
    assert SetOf([t] + order) == SetOf(order) + {t};
    assert t !in SetOf(order);
  }

  /** A parked tracker changes. */
  lemma KeptSet(order: seq<PageTracker>, freed: seq<PageTracker>, parked: set<PageTracker>, views: Views, b: Board, mode: bool,
                t: PageTracker, s: State)
    requires Kept(order, freed, parked, views, b, mode) && t in parked && Sane(s)
    ensures Kept(order, freed, parked, views[t := s], b, mode)
    ensures (forall x :: x in order ==> x in views && x in views[t := s]) && Tally(order, views[t := s], mode) == Tally(order, views, mode)
  {
    hide Placed, Sane, Idle, Tally;
    forall x | x in order ensures x in views && x != t {
      assert x in SetOf(order);
    }
    forall x | x in freed ensures x != t {
      assert x in SetOf(freed);
    }
    PlacedFrame(SetOf(order), views, views[t := s], b, mode);
    TallyFrame(order, views, views[t := s], mode);
  }

  /** A parked tracker that is empty is put aside. */
  lemma KeptFree(order: seq<PageTracker>, freed: seq<PageTracker>, parked: set<PageTracker>, views: Views, b: Board, mode: bool,
                 t: PageTracker)
    requires Kept(order, freed, parked, views, b, mode) && t in parked && t in views && Idle(views[t])
    ensures Kept(order, [t] + freed, parked - {t}, views, b, mode)
  {
    hide Placed;
    assert SetOf([t] + freed) == SetOf(freed) + {t};
    assert t !in SetOf(freed);
  }

  /** A parked tracker leaves. */
  lemma KeptLeave(order: seq<PageTracker>, freed: seq<PageTracker>, parked: set<PageTracker>, views: Views, b: Board, mode: bool,
                  t: PageTracker)
    requires Kept(order, freed, parked, views, b, mode) && t in parked
    ensures Kept(order, freed, parked - {t}, views - {t}, b, mode)
    ensures (forall x :: x in order ==> x in views && x in views - {t}) && Tally(order, views - {t}, mode) == Tally(order, views, mode)
  {
    hide Placed, Sane, Idle, Tally;
    var views' := views - {t};
    forall x | x in order ensures x in views' && views'[x] == views[x] {
      assert x in SetOf(order);
    }
    forall x | x in freed ensures x in views' && views'[x] == views[x] {
      assert x in SetOf(freed);
    }
    PlacedFrame(SetOf(order), views, views', b, mode);
    TallyFrame(order, views, views', mode);
  }

  /** The first of the waiting trackers is picked up. */
  lemma KeptPick(order: seq<PageTracker>, freed: seq<PageTracker>, parked: set<PageTracker>, views: Views, b: Board, mode: bool)
    requires Kept(order, freed, parked, views, b, mode) && freed != []
    ensures freed[0] in views && Idle(views[freed[0]]) && Kept(order, freed[1..], parked + {freed[0]}, views, b, mode)
  {
    hide Placed;
    assert SetOf(freed) == SetOf(freed[1..]) + {freed[0]};
    assert freed[0] !in SetOf(freed[1..]);
    assert freed[0] in freed;
  }

  /** A new tracker comes in. */
  lemma KeptNew(order: seq<PageTracker>, freed: seq<PageTracker>, parked: set<PageTracker>, views: Views, b: Board, mode: bool,
                t: PageTracker, s: State)
    requires Kept(order, freed, parked, views, b, mode) && t !in views && Sane(s)
    ensures Kept(order, freed, parked + {t}, views[t := s], b, mode)
    ensures (forall x :: x in order ==> x in views && x in views[t := s]) && Tally(order, views[t := s], mode) == Tally(order, views, mode)
  {
    hide Placed, Sane, Idle, Tally;
    forall x | x in order ensures x in views && x != t {
      assert x in SetOf(order);
    }
    forall x | x in freed ensures x in views && x != t {
      assert x in SetOf(freed);
    }
    PlacedFrame(SetOf(order), views, views[t := s], b, mode);
    TallyFrame(order, views, views[t := s], mode);
  }

  /** A tracker changes in a way that no list depends on. */
  lemma KeptFlag(order: seq<PageTracker>, freed: seq<PageTracker>, parked: set<PageTracker>, views: Views, b: Board, mode: bool,
                 t: PageTracker, s: State)
    requires Kept(order, freed, parked, views, b, mode) && t in views && Sane(s)
    requires s == views[t].(flags := s.flags) && s.flags.dense == views[t].flags.dense && s.flags.donated == views[t].flags.donated
    ensures Kept(order, freed, parked, views[t := s], b, mode)
    ensures (forall x :: x in order ==> x in views && x in views[t := s]) && Tally(order, views[t := s], mode) == Tally(order, views, mode)
  {
    hide Sane, Tally;
    var views' := views[t := s];
    forall x | x in SetOf(order) ensures Listed(views'[x], b, mode, x) {
      assert Listed(views[x], b, mode, x);
    }
    forall f: Family, i: nat, x: PageTracker | On(b, x, f, i) ensures x in SetOf(order) && Home(views'[x], mode, f, i) {
      assert Home(views[x], mode, f, i);
    }
    forall x | x in order ensures x in views { assert x in SetOf(order); }
    TallyFlag(order, views, mode, t, s);
  }

  lemma WeighFlag(s: State, s': State, mode: bool)
    requires s' == s.(flags := s'.flags) && s'.flags.dense == s.flags.dense && s'.flags.donated == s.flags.donated
    ensures Loose(s') == Loose(s) && OnList(s', mode) == OnList(s, mode)
  {
  }

  lemma {:induction false} TallyFlag(order: seq<PageTracker>, views: Views, mode: bool, t: PageTracker, s: State)
    requires (forall x :: x in order ==> x in views) && t in views
    requires s == views[t].(flags := s.flags) && s.flags.dense == views[t].flags.dense && s.flags.donated == views[t].flags.donated
    ensures Tally(order, views[t := s], mode) == Tally(order, views, mode)
    decreases order
  {
    hide Add, Loose, OnList;
    WeighFlag(views[t], s, mode);
    if order != [] { TallyFlag(order[1..], views, mode, t, s); }
  }
}

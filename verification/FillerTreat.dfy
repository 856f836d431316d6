/** Treatments of trackers: which are picked, held and given back. */
module FillerTreat {
  import opened Lists
  import opened RangeTrackers
  import opened PageTrackers
  import opened FillerLists
  import opened FillerBooks
  import opened FillerKeep
  import opened FillerPick
  import opened FillerPut

  /** How many trackers a treatment takes on at most. */
  const TO_SCAN: nat := 64

  /** Only what the treatments use differs. */
  ghost predicate SameButTreatment(s: State, t: State) {
    t == s.(flags := s.flags.(sampleHold := t.flags.sampleHold, collapseHold := t.flags.collapseHold, collapsing := t.flags.collapsing))
  }

  lemma TreatedSane(s: State, t: State)
    requires Sane(s) && SameButTreatment(s, t) && (t.flags.collapsing ==> t.releasedCount == 0)
    ensures Sane(t) && s.flags.dense == t.flags.dense && s.flags.donated == t.flags.donated && t == s.(flags := t.flags)
    ensures Idle(s) ==> Idle(t)
  {
  }

  lemma KnownSane(order: seq<PageTracker>, freed: seq<PageTracker>, parked: set<PageTracker>, views: Views, b: Board, mode: bool, t: PageTracker)
    requires Kept(order, freed, parked, views, b, mode) && t in views
    ensures Sane(views[t])
  {
    hide Placed;
    if t in SetOf(order) {
      OrderKnown(order, freed, parked, views, b, mode, t);
    } else if t in SetOf(freed) {
      assert t in freed;
    }
  }

  /** Where a tracker is, from whether it is empty. */
  lemma WhereEmpty(order: seq<PageTracker>, freed: seq<PageTracker>, parked: set<PageTracker>, views: Views, b: Board, mode: bool, t: PageTracker)
    requires Kept(order, freed, parked, views, b, mode) && AllIdle(parked, views) && t in views
    ensures t in order <==> views[t].free.longest < PAGES
    ensures views[t].free.longest <= PAGES
  {
    hide Placed;
    KnownSane(order, freed, parked, views, b, mode, t);
    LongestExtremes(views[t].free);
    if t in order {
      OrderKnown(order, freed, parked, views, b, mode, t);
      InUseBounds(views[t]);
    } else if t in SetOf(freed) {
      assert t in freed && t !in SetOf(order);
    } else {
      assert t !in SetOf(order) && t in parked;
    }
  }

  lemma IdleStays(parked: set<PageTracker>, views: Views, t: PageTracker, s: State)
    requires AllIdle(parked, views) && t in views && (Idle(views[t]) ==> Idle(s))
    ensures AllIdle(parked, views[t := s])
  {
    hide Idle;
  }

  // ----- walking all lists -----

  /** `q` are the trackers on the lists of `fs`, and on those of `f` below `i`. */
  ghost predicate Walked(order: seq<PageTracker>, views: Views, mode: bool, fs: seq<Family>, f: Family, i: nat, q: seq<PageTracker>) {
    NoDup(q) && (forall t :: t in q ==> t in order && Below(views, mode, fs, f, i, t)) &&
    (forall t :: t in order && Below(views, mode, fs, f, i, t) ==> t in q)
  }

  ghost predicate Below(views: Views, mode: bool, fs: seq<Family>, f: Family, i: nat, t: PageTracker) {
    t in views && 0 < views[t].free.nallocs <= PAGES &&
    (FamilyOf(views[t], mode) in fs || (FamilyOf(views[t], mode) == f && IndexOf(views[t]) < i))
  }

  lemma WalkStart(order: seq<PageTracker>, views: Views, mode: bool, f: Family)
    ensures Walked(order, views, mode, [], f, 0, [])
  {
  }

  lemma WalkStep(order: seq<PageTracker>, freed: seq<PageTracker>, parked: set<PageTracker>, views: Views, b: Board, mode: bool,
                 fs: seq<Family>, f: Family, i: nat, q: seq<PageTracker>)
    requires Kept(order, freed, parked, views, b, mode) && f in b && i < |b[f]| && f !in fs && Walked(order, views, mode, fs, f, i, q)
    ensures Walked(order, views, mode, fs, f, i + 1, q + b[f][i])
  {
    hide FamilyOf, IndexOf, Kept;
    ListHolds(order, freed, parked, views, b, mode, f, i);
    NoDupConcat(q, b[f][i]);
  }

  /** Which trackers are on a list. */
  lemma ListHolds(order: seq<PageTracker>, freed: seq<PageTracker>, parked: set<PageTracker>, views: Views, b: Board, mode: bool, f: Family, i: nat)
    requires Kept(order, freed, parked, views, b, mode) && f in b && i < |b[f]|
    ensures NoDup(b[f][i])
    ensures forall t :: t in b[f][i] ==>
              t in order && t in views && 0 < views[t].free.nallocs <= PAGES && FamilyOf(views[t], mode) == f && IndexOf(views[t]) == i
    ensures forall t :: t in order && t in views && 0 < views[t].free.nallocs <= PAGES && FamilyOf(views[t], mode) == f && IndexOf(views[t]) == i ==>
              t in b[f][i]
  {
    hide FamilyOf, IndexOf;
    var list := b[f][i];
    forall t | t in list ensures t in order && t in views && 0 < views[t].free.nallocs <= PAGES && FamilyOf(views[t], mode) == f && IndexOf(views[t]) == i {
      assert On(b, t, f, i);
      assert t in SetOf(order) && Home(views[t], mode, f, i);
    }
    forall t | t in order && t in views && 0 < views[t].free.nallocs <= PAGES && FamilyOf(views[t], mode) == f && IndexOf(views[t]) == i ensures t in list {
      assert t in SetOf(order);
      assert Listed(views[t], b, mode, t);
    }
  }

  // ----- picking -----

  /** The holds match the picks. */
  ghost predicate Picks(views: Views, sampled: set<PageTracker>, chosen: set<PageTracker>, q1: seq<PageTracker>, q2: seq<PageTracker>) {
    Holds(views, sampled, chosen) && SetOf(q1) == sampled && SetOf(q2) == chosen && NoDup(q1) && NoDup(q2) &&
    |q1| <= TO_SCAN && |q2| <= TO_SCAN
  }

  ghost function WithSample(s: State, v: bool): State { s.(flags := s.flags.(sampleHold := v)) }
  ghost function WithCollapse(s: State, v: bool): State { s.(flags := s.flags.(collapseHold := v)) }
  ghost function WithCollapsing(s: State, v: bool): State { s.(flags := s.flags.(collapsing := v)) }

  lemma PickSample(views: Views, sampled: set<PageTracker>, chosen: set<PageTracker>, q1: seq<PageTracker>, q2: seq<PageTracker>, t: PageTracker)
    requires Picks(views, sampled, chosen, q1, q2) && t in views && t !in q1 && |q1| < TO_SCAN
    ensures Picks(views[t := WithSample(views[t], true)], sampled + {t}, chosen, q1 + [t], q2)
  {
    assert SetOf(q1 + [t]) == SetOf(q1) + {t};
    NoDupConcat(q1, [t]);
  }

  lemma PickCollapse(views: Views, sampled: set<PageTracker>, chosen: set<PageTracker>, q1: seq<PageTracker>, q2: seq<PageTracker>, t: PageTracker)
    requires Picks(views, sampled, chosen, q1, q2) && t in views && t !in q2 && |q2| < TO_SCAN
    ensures Picks(views[t := WithCollapse(views[t], true)], sampled, chosen + {t}, q1, q2 + [t])
  {
    assert SetOf(q2 + [t]) == SetOf(q2) + {t};
    NoDupConcat(q2, [t]);
  }

  /** One pick makes way for another. */
  lemma PickReplace(views: Views, sampled: set<PageTracker>, chosen: set<PageTracker>, q1: seq<PageTracker>, q2: seq<PageTracker>, t: PageTracker, w: nat)
    requires Picks(views, sampled, chosen, q1, q2) && t in views && t !in q2 && w < |q2| && q2[w] in views && !views[q2[w]].flags.collapsing
    ensures q2[w] != t
    ensures Picks(views[t := WithCollapse(views[t], true)][q2[w] := WithCollapse(views[q2[w]], false)], sampled, chosen + {t} - {q2[w]}, q1, q2[w := t])
  {
    var x, q := q2[w], q2[w := t];
    assert x in q2;
    forall y | y in SetOf(q2[w := t]) ensures y in SetOf(q2) + {t} - {x} {
      var j :| 0 <= j < |q| && q[j] == y;
      assert j != w ==> q2[j] in q2 && q2[j] != x;
    }
    forall y | y in SetOf(q2) + {t} - {x} ensures y in SetOf(q2[w := t]) {
      if y != t {
        var j :| 0 <= j < |q2| && q2[j] == y;
        assert q[j] == y;
      } else {
        assert q[w] == y;
      }
    }
  }

  ghost predicate NoneCollapsing(views: Views) {
    forall t :: t in views ==> !views[t].flags.collapsing
  }

  /** Nothing but treatment flags has changed, and the lists no longer depend on it. */
  ghost predicate SameShape(views: Views, views': Views) {
    views'.Keys == views.Keys && forall t :: t in views ==> SameButTreatment(views[t], views'[t])
  }

  lemma SameShapeSelf(views: Views)
    ensures SameShape(views, views)
  {
  }

  lemma SameShapeStep(views: Views, mid: Views, t: PageTracker, s: State)
    requires SameShape(views, mid) && t in mid && SameButTreatment(mid[t], s)
    ensures SameShape(views, mid[t := s])
  {
    assert SameButTreatment(views[t], mid[t]);
  }

  /** What has been picked so far comes from the families `fs` or is in `part`. */
  ghost predicate PickedFrom(views: Views, mode: bool, fs: seq<Family>, part: seq<PageTracker>, q: seq<PageTracker>) {
    forall t :: t in q ==> t in views && (FamilyOf(views[t], mode) in fs || t in part)
  }

  lemma NotPicked(order: seq<PageTracker>, views: Views, mode: bool, fs: seq<Family>, f: Family, n: nat, all: seq<PageTracker>, k: nat, q: seq<PageTracker>)
    requires Walked(order, views, mode, [], f, n, all) && k < |all| && f !in fs && PickedFrom(views, mode, fs, all[..k], q)
    ensures all[k] in views && all[k] !in q
  {
    assert all[k] in all;
    assert Below(views, mode, [], f, n, all[k]);
    assert all[k] !in all[..k];
  }

  lemma PickedMore(views: Views, mode: bool, fs: seq<Family>, all: seq<PageTracker>, k: nat, q: seq<PageTracker>, q': seq<PageTracker>)
    requires k < |all| && PickedFrom(views, mode, fs, all[..k], q) && all[k] in views && forall t :: t in q' ==> t in q || t == all[k]
    ensures PickedFrom(views, mode, fs, all[..k + 1], q')
  {
    assert all[..k + 1] == all[..k] + [all[k]];
  }

  lemma PickedFamily(order: seq<PageTracker>, views: Views, mode: bool, fs: seq<Family>, f: Family, n: nat, all: seq<PageTracker>, q: seq<PageTracker>)
    requires Walked(order, views, mode, [], f, n, all) && PickedFrom(views, mode, fs, all, q)
    ensures PickedFrom(views, mode, fs + [f], [], q)
  {
    forall t | t in q ensures t in views && FamilyOf(views[t], mode) in fs + [f] {
      if t in all { assert Below(views, mode, [], f, n, t); }
    }
  }

  // ----- which are picked -----

  /** Whether a tracker with `n` objects is to be treated rather than one with `m`. */
  predicate Preferred(n: nat, dense: bool, m: nat, other: bool) {
    if n > m then true else if n < m then false else if !dense then false else !other
  }

  ghost function Urgency(objects: PageTracker -> nat, views: Views, t: PageTracker): nat {
    2 * objects(t) + if t in views && views[t].flags.dense then 1 else 0
  }

  lemma PreferredIsUrgency(objects: PageTracker -> nat, views: Views, t: PageTracker, u: PageTracker)
    requires t in views && u in views
    ensures Preferred(objects(t), views[t].flags.dense, objects(u), views[u].flags.dense) <==> Urgency(objects, views, t) > Urgency(objects, views, u)
  {
  }

  /** Of those offered, `q` has as many as there is room for. */
  ghost predicate Filled(seen: set<PageTracker>, q: seq<PageTracker>) {
    SetOf(q) <= seen && (|q| < TO_SCAN ==> seen <= SetOf(q))
  }

  /** And none of the others is more urgent. */
  ghost predicate Top(objects: PageTracker -> nat, views: Views, seen: set<PageTracker>, q: seq<PageTracker>) {
    Filled(seen, q) && forall t, u :: t in seen && t !in q && u in q ==> Urgency(objects, views, t) <= Urgency(objects, views, u)
  }

  ghost predicate Lowest(objects: PageTracker -> nat, views: Views, q: seq<PageTracker>, w: nat) {
    w < |q| && forall u :: u in q ==> Urgency(objects, views, q[w]) <= Urgency(objects, views, u)
  }

  lemma FilledAdd(seen: set<PageTracker>, q: seq<PageTracker>, t: PageTracker)
    requires Filled(seen, q)
    ensures Filled(seen + {t}, if |q| < TO_SCAN then q + [t] else q)
  {
    assert SetOf(q + [t]) == SetOf(q) + {t};
  }

  lemma TopAdd(objects: PageTracker -> nat, views: Views, seen: set<PageTracker>, q: seq<PageTracker>, t: PageTracker)
    requires Top(objects, views, seen, q) && |q| < TO_SCAN
    ensures Top(objects, views, seen + {t}, q + [t])
  {
    FilledAdd(seen, q, t);
    assert forall x :: x in q ==> x in q + [t];
    assert forall x :: x in seen ==> x in SetOf(q);
    assert t in q + [t];
  }

  lemma TopKeep(objects: PageTracker -> nat, views: Views, seen: set<PageTracker>, q: seq<PageTracker>, t: PageTracker, w: nat)
    requires Top(objects, views, seen, q) && |q| >= TO_SCAN && Lowest(objects, views, q, w) && Urgency(objects, views, q[w]) > Urgency(objects, views, t)
    ensures Top(objects, views, seen + {t}, q)
  {
  }

  lemma TopReplace(objects: PageTracker -> nat, views: Views, seen: set<PageTracker>, q: seq<PageTracker>, t: PageTracker, w: nat)
    requires Top(objects, views, seen, q) && |q| >= TO_SCAN && Lowest(objects, views, q, w) && Urgency(objects, views, q[w]) <= Urgency(objects, views, t)
    ensures Top(objects, views, seen + {t}, q[w := t])
  {
    var q' := q[w := t];
    hide Urgency;
    assert q'[w] == t;
    forall x | x in q' ensures x in q || x == t {
      var j :| 0 <= j < |q'| && q'[j] == x;
      assert j != w ==> q[j] == x;
    }
    forall x | x in q && x != q[w] ensures x in q' {
      var j :| 0 <= j < |q| && q[j] == x;
      assert q'[j] == x;
    }
    forall x, u | x in seen + {t} && x !in q' && u in q' ensures Urgency(objects, views, x) <= Urgency(objects, views, u) {
      assert q[w] in q;
      assert x in q ==> x == q[w];
      assert u in q || u == t;
    }
  }

  /** Whether a tracker is offered: for sampling unless it is donated, for collapse unless all its free pages are released,
      and then only in `mode`. */
  ghost predicate May(sampling: bool, mode: bool, f: Family, ok: bool) {
    ok && if sampling then !f.Donated? else !f.AllReleased? || mode
  }

  ghost function Eligible(order: seq<PageTracker>, views: Views, mode: bool, sampling: bool, ok: PageTracker -> bool, fs: seq<Family>, part: seq<PageTracker>):
    set<PageTracker>
  {
    set t | t in order && t in views && (FamilyOf(views[t], mode) in fs || t in part) && May(sampling, mode, FamilyOf(views[t], mode), ok(t))
  }

  lemma EligibleNext(order: seq<PageTracker>, views: Views, mode: bool, sampling: bool, ok: PageTracker -> bool, fs: seq<Family>, f: Family, n: nat,
                     all: seq<PageTracker>, k: nat)
    requires Walked(order, views, mode, [], f, n, all) && k < |all|
    ensures Eligible(order, views, mode, sampling, ok, fs, all[..k + 1]) ==
            var before := Eligible(order, views, mode, sampling, ok, fs, all[..k]); if May(sampling, mode, f, ok(all[k])) then before + {all[k]} else before
  {
    assert all[..k + 1] == all[..k] + [all[k]];
    assert all[k] in all && Below(views, mode, [], f, n, all[k]);
    hide FamilyOf, IndexOf;
  }

  /** All trackers on lists have their place there. */
  ghost predicate Indexed(order: seq<PageTracker>, views: Views, mode: bool) {
    forall t :: t in order ==> t in views && 0 < views[t].free.nallocs <= PAGES && IndexOf(views[t]) < NumLists(FamilyOf(views[t], mode))
  }

  lemma AllIndexed(order: seq<PageTracker>, freed: seq<PageTracker>, parked: set<PageTracker>, views: Views, b: Board, mode: bool)
    requires Kept(order, freed, parked, views, b, mode)
    ensures Indexed(order, views, mode)
  {
    hide FamilyOf, IndexOf, Kept, NumLists;
    forall t | t in order ensures t in views && 0 < views[t].free.nallocs <= PAGES && IndexOf(views[t]) < NumLists(FamilyOf(views[t], mode)) {
      OrderKnown(order, freed, parked, views, b, mode, t);
      IndexInRange(views[t], mode);
    }
  }

  lemma EligibleFamily(order: seq<PageTracker>, views: Views, mode: bool, sampling: bool, ok: PageTracker -> bool, fs: seq<Family>, f: Family,
                       all: seq<PageTracker>)
    requires Walked(order, views, mode, [], f, NumLists(f), all) && Indexed(order, views, mode)
    ensures Eligible(order, views, mode, sampling, ok, fs, all) == Eligible(order, views, mode, sampling, ok, fs + [f], [])
  {
    hide FamilyOf, IndexOf, NumLists;
    forall t | t in order && t in views ensures t in all <==> FamilyOf(views[t], mode) == f {
      if t in all { assert Below(views, mode, [], f, NumLists(f), t); }
      if FamilyOf(views[t], mode) == f { assert Below(views, mode, [], f, NumLists(f), t); }
    }
  }

  lemma NoneEligible(order: seq<PageTracker>, views: Views, mode: bool, sampling: bool, ok: PageTracker -> bool)
    ensures Eligible(order, views, mode, sampling, ok, [], []) == {}
  {
  }

  /** All trackers on lists that may be picked. */
  ghost function AllEligible(order: seq<PageTracker>, views: Views, mode: bool, sampling: bool, ok: PageTracker -> bool): set<PageTracker> {
    set t | t in order && t in views && May(sampling, mode, FamilyOf(views[t], mode), ok(t))
  }

  lemma EveryFamily(order: seq<PageTracker>, views: Views, mode: bool, sampling: bool, ok: PageTracker -> bool, fs: seq<Family>)
    requires fs == [Partial(false), Partial(true), Donated, Regular(true), Regular(false), AllReleased(false), AllReleased(true)]
    ensures Eligible(order, views, mode, sampling, ok, fs, []) == AllEligible(order, views, mode, sampling, ok)
  {
    forall f: Family ensures f in fs { Listing(f); }
    hide FamilyOf;
  }

  lemma Listing(f: Family)
    ensures f in [Partial(false), Partial(true), Donated, Regular(true), Regular(false), AllReleased(false), AllReleased(true)]
  {
  }

  lemma Allowed(mode: bool, f: Family, sampleOk: bool, collapseOk: bool)
    ensures May(true, mode, f, sampleOk) == (!f.Donated? && sampleOk)
    ensures May(false, mode, f, collapseOk) == ((!f.AllReleased? || mode) && collapseOk)
  {
  }

  lemma LowestIn(objects: PageTracker -> nat, views: Views, q: seq<PageTracker>, w: nat)
    requires Lowest(objects, views, q, w)
    ensures w < |q|
  {
  }

  lemma AllPicksKnown(views: Views, sampled: set<PageTracker>, chosen: set<PageTracker>, q1: seq<PageTracker>, q2: seq<PageTracker>)
    requires Picks(views, sampled, chosen, q1, q2)
    ensures forall t :: t in q2 ==> t in views
  {
    assert forall t :: t in q2 ==> t in SetOf(q2);
  }

  lemma DenseSame(views: Views, views': Views, t: PageTracker)
    requires SameShape(views, views') && t in views
    ensures t in views' && views'[t].flags.dense == views[t].flags.dense
  {
    assert SameButTreatment(views[t], views'[t]);
  }

  lemma SampleFlag(s: State)
    ensures SameButTreatment(s, WithSample(s, true)) && WithSample(s, true) == s.(flags := s.flags.(sampleHold := true))
    ensures WithSample(s, true).flags.collapsing == s.flags.collapsing
  {
  }

  lemma CollapseFlag(s: State, v: bool)
    ensures SameButTreatment(s, WithCollapse(s, v)) && WithCollapse(s, v) == s.(flags := s.flags.(collapseHold := v))
    ensures WithCollapse(s, v).flags.collapsing == s.flags.collapsing
  {
  }

  lemma PicksSize(views: Views, sampled: set<PageTracker>, chosen: set<PageTracker>, q1: seq<PageTracker>, q2: seq<PageTracker>)
    requires Picks(views, sampled, chosen, q1, q2)
    ensures |q1| <= TO_SCAN && |q2| <= TO_SCAN
  {
  }

  lemma PicksKnown(views: Views, sampled: set<PageTracker>, chosen: set<PageTracker>, q1: seq<PageTracker>, q2: seq<PageTracker>, w: nat)
    requires Picks(views, sampled, chosen, q1, q2) && w < |q2|
    ensures q2[w] in views
  {
    assert q2[w] in SetOf(q2);
  }

  lemma FamilySame(s: State, t: State, mode: bool)
    requires SameButTreatment(s, t)
    ensures FamilyOf(t, mode) == FamilyOf(s, mode) && t.free == s.free
    ensures 0 < s.free.nallocs <= PAGES ==> IndexOf(t) == IndexOf(s)
  {
  }

  lemma WalkedSame(order: seq<PageTracker>, views: Views, views': Views, mode: bool, f: Family, n: nat, q: seq<PageTracker>)
    requires SameShape(views, views') && Walked(order, views', mode, [], f, n, q)
    ensures Walked(order, views, mode, [], f, n, q)
  {
    hide SameButTreatment, FamilyOf, IndexOf;
    forall t | t in order && t in views ensures Below(views, mode, [], f, n, t) <==> Below(views', mode, [], f, n, t) {
      FamilySame(views[t], views'[t], mode);
    }
    forall t | t in q ensures Below(views, mode, [], f, n, t) {
      assert Below(views', mode, [], f, n, t);
    }
  }

  lemma SameShapeTrans(a: Views, b: Views, c: Views)
    requires SameShape(a, b) && SameShape(b, c)
    ensures SameShape(a, c)
  {
    forall t | t in a ensures SameButTreatment(a[t], c[t]) {
      assert SameButTreatment(a[t], b[t]) && SameButTreatment(b[t], c[t]);
    }
  }

  lemma SameKeys(views: Views, views': Views)
    requires SameShape(views, views')
    ensures views'.Keys == views.Keys
  {
  }

  lemma AllDistinct()
    ensures NoDup([Partial(false), Partial(true), Donated, Regular(true), Regular(false), AllReleased(false), AllReleased(true)])
  {
  }

  lemma NoDupAt<T>(s: seq<T>, k: nat)
    requires NoDup(s) && k < |s|
    ensures s[k] !in s[..k]
  {
  }

  lemma ChosenKnown2(views: Views, sampled: set<PageTracker>, chosen: set<PageTracker>, t: PageTracker)
    requires Holds(views, sampled, chosen) && t in chosen
    ensures t in views
  {
  }

  lemma CollapsingFlag(views: Views, sampled: set<PageTracker>, chosen: set<PageTracker>, t: PageTracker)
    requires Holds(views, sampled, chosen) && t in chosen && t in views
    ensures forall v: bool :: SameButTreatment(views[t], WithCollapsing(views[t], v)) && Holds(views[t := WithCollapsing(views[t], v)], sampled, chosen)
    ensures forall v: bool :: WithCollapsing(views[t], v) == views[t].(flags := views[t].flags.(collapsing := v))
    ensures !views[t].flags.collapsing ==> views[t := WithCollapsing(views[t], false)] == views
  {
  }

  /** While a tracker is being collapsed none of its pages is released. */
  lemma CollapsingUnreleased(s: State)
    requires Sane(s) && s.flags.collapsing
    ensures s.released == {}
  {
  }

  /** The treatments see no difference. */
  ghost predicate SameHolds(views: Views, views': Views) {
    views'.Keys == views.Keys && forall t :: t in views ==>
      views'[t].flags.sampleHold == views[t].flags.sampleHold && views'[t].flags.collapseHold == views[t].flags.collapseHold &&
      views'[t].flags.collapsing == views[t].flags.collapsing && views'[t].allocs == views[t].allocs
  }

  lemma ReleaseHolds(views: Views, views': Views, t: PageTracker, done: set<nat>)
    requires ReleaseDone(views, views', t, done)
    ensures SameHolds(views, views') && views'.Keys == views.Keys
  {
    hide State.Backed;
  }

  /** What residency queries and collapsing found out about a hugepage. */
  datatype Residency = Residency(backed: bool, swapped: bool, unbacked: set<nat>)

  ghost function Mended(s: State): State { s.(unbroken := true) }

  lemma MendedFits(s: State, rest: Counts)
    requires InUse(s)
    ensures Sane(Mended(s)) && InUse(Undonated(Mended(s))) && Mended(s).free.longest < PAGES && Loose(Mended(s)) == Loose(s)
  {
    InUseBounds(s);
  }

  lemma MendedHolds(views: Views, parked: set<PageTracker>, sampled: set<PageTracker>, chosen: set<PageTracker>, t: PageTracker)
    requires t in views && Holds(views, sampled, chosen) && AllIdle(parked, views) && t !in parked
    ensures var v := views[t := Undonated(Mended(views[t]))];
            Holds(v, sampled, chosen) && AllIdle(parked, v) && SameHolds(views, v) && v.Keys == views.Keys
  {
    hide Idle;
  }

  lemma ReleaseSample(views: Views, sampled: set<PageTracker>, chosen: set<PageTracker>, t: PageTracker)
    requires Holds(views, sampled, chosen) && t in views
    ensures Holds(views[t := views[t].(flags := views[t].flags.(sampleHold := false))], sampled - {t}, chosen)
    ensures SameButTreatment(views[t], views[t].(flags := views[t].flags.(sampleHold := false)))
  {
  }

  lemma ReleaseChosen(views: Views, sampled: set<PageTracker>, chosen: set<PageTracker>, t: PageTracker)
    requires Holds(views, sampled, chosen) && t in views && !views[t].flags.collapsing
    ensures Holds(views[t := WithCollapse(views[t], false)], sampled, chosen - {t})
  {
  }

  lemma RestOf(q: seq<PageTracker>, k: nat)
    requires k < |q| && NoDup(q)
    ensures q[k] in SetOf(q[k..]) && SetOf(q[k..]) - {q[k]} == SetOf(q[k + 1..])
  {
    assert q[k..] == [q[k]] + q[k + 1..];
    assert q[k] !in q[k + 1..];
    assert SetOf(q[k..]) == SetOf(q[k + 1..]) + {q[k]};
  }

  lemma NoneCollapsingStep(views: Views, views': Views)
    requires NoneCollapsing(views) && SameHolds(views, views')
    ensures NoneCollapsing(views')
  {
  }

  lemma NoneCollapsingFlag(views: Views, t: PageTracker, f: Flags)
    requires NoneCollapsing(views) && t in views && !f.collapsing
    ensures NoneCollapsing(views[t := views[t].(flags := f)])
  {
  }

  lemma SampledKnown(views: Views, sampled: set<PageTracker>, chosen: set<PageTracker>, t: PageTracker)
    requires Holds(views, sampled, chosen) && t in sampled
    ensures t in views
  {
  }

  lemma NoneCollapsingAt(views: Views, t: PageTracker)
    requires NoneCollapsing(views) && t in views
    ensures !views[t].flags.collapsing
  {
  }

  lemma SameHoldsSelf(views: Views)
    ensures SameHolds(views, views)
  {
  }

  /** No allocation has come or gone. */
  ghost predicate SameAllocs(views: Views, views': Views) {
    views'.Keys == views.Keys && forall t :: t in views ==> views'[t].allocs == views[t].allocs
  }

  lemma SameAllocsTrans(a: Views, b: Views, c: Views)
    requires SameAllocs(a, b) && SameAllocs(b, c)
    ensures SameAllocs(a, c)
  {
    forall t | t in a ensures c[t].allocs == a[t].allocs { assert b[t].allocs == a[t].allocs; }
  }

  lemma HoldsAllocs(views: Views, views': Views)
    requires SameHolds(views, views')
    ensures SameAllocs(views, views')
  {
  }

  lemma ShapeAllocs(views: Views, views': Views)
    requires SameShape(views, views')
    ensures SameAllocs(views, views')
  {
    forall t | t in views ensures views'[t].allocs == views[t].allocs { assert SameButTreatment(views[t], views'[t]); }
  }

  lemma FlagAllocs(views: Views, t: PageTracker, f: Flags)
    requires t in views
    ensures SameAllocs(views, views[t := views[t].(flags := f)])
  {
  }

  lemma SameAllocsSelf(views: Views)
    ensures SameAllocs(views, views)
  {
  }

  ghost function Abandoned(s: State): State { s.(flags := s.flags.(abandoned := true)) }

  lemma AbandonedSane(s: State)
    requires Sane(s)
    ensures Sane(Abandoned(s)) && (Idle(s) ==> Idle(Abandoned(s)))
  {
  }

  lemma AbandonedHolds(views: Views, sampled: set<PageTracker>, chosen: set<PageTracker>, t: PageTracker)
    requires Holds(views, sampled, chosen) && t in views
    ensures Holds(views[t := Abandoned(views[t])], sampled, chosen)
    ensures Abandoned(views[t]) == views[t].(flags := views[t].flags.(abandoned := true))
  {
  }
}

/** Runs of the filler in which threads allocate, free and release while a treatment pass
    is under way. A step is one stretch of holding the page heap lock; `Put` gives the lock
    up in the middle when it has to release the rest of a hugepage. */
module FillerRuns {
  import opened Lists
  import opened RangeTrackers
  import opened PageTrackers
  import opened FillerLists
  import opened FillerKeep
  import opened FillerPick
  import opened FillerPut
  import opened FillerRelease
  import opened FillerTreat
  import opened HintedLists
  import opened Filler

  /** An allocation on a tracker. */
  datatype Span = Span(pt: PageTracker, i: nat, n: nat)

  /** A thread in the middle of `Put`. */
  datatype Waiting = Waiting(pt: PageTracker, partial: bool)

  datatype Phase = Calm | Treating(q1: seq<PageTracker>, q2: seq<PageTracker>)

  type Spans = map<nat, Span>
  type Threads = map<nat, Waiting>

  /** Every span is a live allocation, each a different one. */
  ghost predicate SpansOk(spans: Spans, views: Views) {
    (forall k :: k in spans ==> spans[k].pt in views && Piece(spans[k].i, spans[k].n) in views[spans[k].pt].allocs) &&
    (forall j, k :: j in spans && k in spans && j != k ==> spans[j] != spans[k])
  }

  /** The threads in the middle of `Put` have the parked trackers, one each. */
  ghost predicate ThreadsOk(threads: Threads, parked: set<PageTracker>) {
    (forall k :: k in threads ==> threads[k].pt in parked) &&
    (forall j, k :: j in threads && k in threads && j != k ==> threads[j].pt != threads[k].pt) &&
    (forall t :: t in parked ==> exists k :: k in threads && threads[k].pt == t)
  }

  /** The trackers picked are those the filler holds on to. */
  ghost predicate PhaseOk(phase: Phase, now: PageTracker?, views: Views, sampled: set<PageTracker>, chosen: set<PageTracker>) {
    match phase
    case Calm => sampled == {} && chosen == {} && now == null
    case Treating(q1, q2) =>
      NoDup(q1) && NoDup(q2) && SetOf(q1) == sampled && SetOf(q2) == chosen && (now != null ==> now in chosen) &&
      forall t :: t in views ==> (views[t].flags.collapsing <==> t == now)
  }

  /** Every tracker there ever was is with the filler or was handed out, once. */
  ghost predicate HandedOk(handed: seq<PageTracker>, born: set<PageTracker>, views: Views) {
    NoDup(handed) && SetOf(handed) !! views.Keys && SetOf(handed) + views.Keys == born
  }

  lemma SpansFrame(spans: Spans, views: Views, views': Views)
    requires SpansOk(spans, views) && SameAllocs(views, views')
    ensures SpansOk(spans, views')
  {
  }

  lemma SpansAdd(spans: Spans, views: Views, views': Views, k: nat, s: Span)
    requires SpansOk(spans, views) && k !in spans && s.pt in views && s.pt in views' && Piece(s.i, s.n) !in views[s.pt].allocs
    requires views'.Keys == views.Keys && views'[s.pt].allocs == views[s.pt].allocs + {Piece(s.i, s.n)}
    requires forall t :: t in views && t != s.pt ==> views'[t].allocs == views[t].allocs
    ensures SpansOk(spans[k := s], views')
  {
  }

  lemma SpansNew(spans: Spans, views: Views, k: nat, s: Span, t: State)
    requires SpansOk(spans, views) && k !in spans && s.pt !in views && t.allocs == {Piece(s.i, s.n)}
    ensures SpansOk(spans[k := s], views[s.pt := t])
  {
  }

  lemma SpansDrop(spans: Spans, views: Views, views': Views, k: nat)
    requires SpansOk(spans, views) && k in spans && spans[k].pt in views'
    requires views'.Keys == views.Keys && views'[spans[k].pt].allocs == views[spans[k].pt].allocs - {Piece(spans[k].i, spans[k].n)}
    requires forall t :: t in views && t != spans[k].pt ==> views'[t].allocs == views[t].allocs
    ensures SpansOk(spans - {k}, views')
  {
  }

  /** A tracker without allocations can leave. */
  lemma SpansLeave(spans: Spans, views: Views, t: PageTracker)
    requires SpansOk(spans, views) && t in views && views[t].allocs == {}
    ensures SpansOk(spans, views - {t})
  {
  }

  lemma ThreadsAdd(threads: Threads, parked: set<PageTracker>, k: nat, w: Waiting)
    requires ThreadsOk(threads, parked) && k !in threads && w.pt !in parked
    ensures ThreadsOk(threads[k := w], parked + {w.pt})
  {
    var th := threads[k := w];
    forall t | t in parked + {w.pt} ensures exists j :: j in th && th[j].pt == t {
      if t == w.pt {
        assert th[k].pt == t;
      } else {
        var j :| j in threads && threads[j].pt == t;
        assert th[j].pt == t;
      }
    }
  }

  lemma ThreadsDrop(threads: Threads, parked: set<PageTracker>, k: nat)
    requires ThreadsOk(threads, parked) && k in threads
    ensures ThreadsOk(threads - {k}, parked - {threads[k].pt})
  {
    var th := threads - {k};
    forall t | t in parked - {threads[k].pt} ensures exists j :: j in th && th[j].pt == t {
      var j :| j in threads && threads[j].pt == t;
      assert th[j].pt == t;
    }
  }

  lemma HandOut(handed: seq<PageTracker>, born: set<PageTracker>, views: Views, t: PageTracker)
    requires HandedOk(handed, born, views) && t in views
    ensures HandedOk(handed + [t], born, views - {t})
  {
    assert t !in SetOf(handed);
    NoDupConcat(handed, [t]);
    assert SetOf(handed + [t]) == SetOf(handed) + {t};
  }

  /** Whether a tracker is being collapsed has not changed; new ones are not. */
  ghost predicate SameCollapsing(views: Views, views': Views) {
    forall t :: t in views' ==> if t in views then views'[t].flags.collapsing == views[t].flags.collapsing else !views'[t].flags.collapsing
  }

  lemma PhaseFrame(phase: Phase, now: PageTracker?, views: Views, views': Views, sampled: set<PageTracker>, chosen: set<PageTracker>)
    requires PhaseOk(phase, now, views, sampled, chosen) && SameCollapsing(views, views') && Holds(views, sampled, chosen)
    ensures PhaseOk(phase, now, views', sampled, chosen)
  {
  }

  lemma ServedFrame(views: Views, views': Views, t: PageTracker, n: nat, i: nat)
    requires Served(views, views', t, n, i)
    ensures SameCollapsing(views, views') && views'.Keys == views.Keys && t in views && t in views'
    ensures views'[t].allocs == views[t].allocs + {Piece(i, n)}
    ensures forall x :: x in views && x != t ==> views'[x].allocs == views[x].allocs
  {
  }

  lemma PutFrame(views: Views, views': Views, t: PageTracker, n: nat, i: nat)
    requires PutDone(views, views', t, n, i)
    ensures SameCollapsing(views, views') && views'.Keys == views.Keys && t in views && t in views'
    ensures views'[t].allocs == views[t].allocs - {Piece(i, n)}
    ensures forall x :: x in views && x != t ==> views'[x].allocs == views[x].allocs
  {
  }

  lemma SubsidedFrame(views: Views, views': Views, mode: bool, success: bool)
    requires Subsided(views, views', mode, success)
    ensures SameCollapsing(views, views') && SameAllocs(views, views')
  {
    forall t | t in views ensures views'[t].flags.collapsing == views[t].flags.collapsing && views'[t].allocs == views[t].allocs {
      assert SubsidedOne(views[t], views'[t], mode, success);
    }
  }

  lemma LeaveFrame(views: Views, t: PageTracker)
    ensures SameCollapsing(views, views - {t})
  {
  }

  /** An empty tracker has no allocations. */
  lemma NoAllocs(s: State)
    requires Idle(s)
    ensures s.allocs == {}
  {
    EmptyTracker(s);
    assert s.free.used == {};
  }

  /** A new tracker with one allocation may join. */
  lemma FirstAlloc(s: State, t: State, n: nat, i: nat, unbacked: nat, donate: bool, dense: bool)
    requires s == Fresh(donate) && Got(s, t, n, i, unbacked) && Ok(t) && n < PAGES && (dense ==> n == 1) && (donate ==> !dense)
    ensures Contributable(t, donate, dense) && t.allocs == {Piece(i, n)}
  {
    LongestExtremes(t.free);
    RunCount(0, PAGES);
  }

  /** The piece just allocated is new. */
  lemma PieceNew(s: State, n: nat, i: nat)
    requires Ok(s) && n > 0 && FreeRun(s.free.used, i, n)
    ensures Piece(i, n) !in s.allocs
  {
    AllocatedAdd(s.allocs, s.free.used, i, n);
  }

  class FillerRun {
    const filler: HugePageFiller
    var spans: Spans
    var threads: Threads
    var phase: Phase
    var now: PageTracker?
    var handed: seq<PageTracker>
    ghost var born: set<PageTracker>

    ghost predicate Valid()
      reads this, filler, filler.views.Keys, filler.lists.Values
    {
      filler.Valid() && SpansOk(spans, filler.views) && ThreadsOk(threads, filler.parked) &&
      PhaseOk(phase, now, filler.views, filler.sampled, filler.chosen) && HandedOk(handed, born, filler.views)
    }

    constructor (mode: bool)
      ensures Valid() && born == {} && fresh(filler) && fresh(filler.lists.Values)
    {
      filler := new HugePageFiller(mode);
      spans, threads, phase, now, handed, born := map[], map[], Calm, null, [], {};
    }

    lemma RunParts()
      requires Valid()
      ensures filler.Valid() && SpansOk(spans, filler.views) && ThreadsOk(threads, filler.parked)
      ensures PhaseOk(phase, now, filler.views, filler.sampled, filler.chosen) && HandedOk(handed, born, filler.views)
      ensures Holds(filler.views, filler.sampled, filler.chosen)
    {
    }

    lemma RunWhole()
      requires filler.Valid() && SpansOk(spans, filler.views) && ThreadsOk(threads, filler.parked)
      requires PhaseOk(phase, now, filler.views, filler.sampled, filler.chosen) && HandedOk(handed, born, filler.views)
      ensures Valid()
    {
    }

    /** A tracker under treatment has not been handed out, and nobody gets it while it is. */
    lemma TreatedStays(t: PageTracker)
      requires Valid() && phase.Treating? && (t in phase.q1 || t in phase.q2)
      ensures t in filler.views && t !in handed && filler.views[t].flags.Held()
    {
      hide HugePageFiller.Linked, HugePageFiller.Tallied;
      filler.ValidParts();
      assert t in SetOf(phase.q1) || t in SetOf(phase.q2);
      HeldBy(filler.views, filler.sampled, filler.chosen, t);
      assert t in handed ==> t in SetOf(handed);
    }

    /** While a tracker is being collapsed none of its pages is released. */
    lemma CollapsingIntact()
      requires Valid() && now != null
      ensures now in filler.views && filler.views[now].released == {}
    {
      hide HugePageFiller.Linked, HugePageFiller.Tallied, Kept;
      filler.ValidParts();
      filler.Parts();
      KnownSane(filler.order, filler.fullyFreed, filler.parked, filler.views, filler.board, filler.mode, now);
      CollapsingUnreleased(filler.views[now]);
    }

    /** Every tracker that has become empty has been handed out: with nobody in the middle of `Put` and nothing put aside,
        those that have not been are in use. */
    lemma EmptiedHanded(t: PageTracker)
      requires Valid() && threads == map[] && filler.fullyFreed == [] && t in born && t !in handed
      ensures t in filler.views && t in filler.order && filler.views[t].allocs != {}
    {
      hide HugePageFiller.Linked, HugePageFiller.Tallied, Placed;
      filler.ValidParts();
      filler.Parts();
      assert t !in SetOf(handed);
      assert filler.parked == {};
      assert t in filler.order by { assert t !in filler.fullyFreed; }
      OrderKnown(filler.order, filler.fullyFreed, filler.parked, filler.views, filler.board, filler.mode, t);
      KnownSane(filler.order, filler.fullyFreed, filler.parked, filler.views, filler.board, filler.mode, t);
    }

    /** A span is on a tracker that is on a list. */
    lemma SpanListed(k: nat)
      requires Valid() && k in spans
      ensures spans[k].pt in filler.views && spans[k].pt in filler.order && Piece(spans[k].i, spans[k].n) in filler.views[spans[k].pt].allocs
    {
      hide HugePageFiller.Linked, HugePageFiller.Tallied, Kept, Idle;
      filler.ValidParts();
      filler.Parts();
      var pt := spans[k].pt;
      WhereEmpty(filler.order, filler.fullyFreed, filler.parked, filler.views, filler.board, filler.mode, pt);
      KnownSane(filler.order, filler.fullyFreed, filler.parked, filler.views, filler.board, filler.mode, pt);
      HasAlloc(filler.views[pt], Piece(spans[k].i, spans[k].n));
    }

    /** A fresh hugepage comes in with a first allocation of `n` pages. */
    method Grow(k: nat, n: nat, donate: bool, dense: bool)
      requires Valid()
      modifies this, filler, filler.lists.Values, filler.views.Keys
      ensures Valid() && fresh(filler.views.Keys - old(filler.views).Keys)
    {
      if k in spans || n == 0 || n >= PAGES || (dense && (donate || n != 1)) { return; }
      var pt := new PageTracker(0, donate);
      JoinWith(pt, k, n, donate, dense);
    }

    method JoinWith(pt: PageTracker, k: nat, n: nat, donate: bool, dense: bool)
      requires Valid() && pt !in filler.views && pt !in born && pt.Now() == Fresh(donate) && Ok(pt.Now())
      requires k !in spans && 0 < n < PAGES && (dense ==> n == 1) && (donate ==> !dense)
      modifies this, filler, filler.lists.Values, pt
      ensures Valid() && filler.views.Keys == old(filler.views).Keys + {pt}
    {
      hide *;
      RunParts();
      ghost var s, v := pt.Now(), filler.views;
      FreshLongest(pt, donate);
      var i, u := pt.Get(n);
      ghost var t := pt.Now();
      FirstAlloc(s, t, n, i, u, donate, dense);
      filler.Contribute(pt, donate, dense);
      JoinFrame(v, pt, t, donate, dense);
      PhaseFrame(phase, now, v, filler.views, filler.sampled, filler.chosen);
      SpansNew(spans, v, k, Span(pt, i, n), Contributed(t, donate, dense));
      BornMore(handed, born, v, pt, Contributed(t, donate, dense));
      spans := spans[k := Span(pt, i, n)];
      born := born + {pt};
      RunWhole();
    }

    /** Allocate `n` pages where there is room. */
    method Alloc(k: nat, n: nat, dense: bool)
      requires Valid()
      modifies this, filler, filler.lists.Values, filler.views.Keys
      ensures Valid() && filler.views.Keys == old(filler.views).Keys
    {
      hide *;
      if k in spans || n == 0 || n >= PAGES || (dense && n != 1) { return; }
      RunParts();
      ghost var v := filler.views;
      filler.AllKnownOk();
      var pt, i, wasReleased := filler.TryGet(n, dense);
      if pt != null {
        BestFits(old(filler.order), v, filler.mode, n, dense, pt);
        ServedFrame(v, filler.views, pt, n, i);
        ServedNew(v, filler.views, pt, n, i);
        PhaseFrame(phase, now, v, filler.views, filler.sampled, filler.chosen);
        SpansAdd(spans, v, filler.views, k, Span(pt, i, n));
        HandedFrame(handed, born, v, filler.views);
        spans := spans[k := Span(pt, i, n)];
      }
      RunWhole();
    }

    /** Start to free span `k`, up to where the lock is dropped. */
    method FreeBegin(k: nat, thread: nat)
      requires Valid()
      modifies this, filler, filler.lists.Values, filler.views.Keys
      ensures Valid() && filler.views.Keys == old(filler.views).Keys
    {
      hide *;
      if k !in spans || thread in threads { return; }
      SpanListed(k);
      RunParts();
      ghost var v := filler.views;
      var sp := spans[k];
      var emptied, partial := filler.PutPages(sp.pt, sp.i, sp.n);
      PutFrame(v, filler.views, sp.pt, sp.n, sp.i);
      PhaseFrame(phase, now, v, filler.views, filler.sampled, filler.chosen);
      SpansDrop(spans, v, filler.views, k);
      HandedFrame(handed, born, v, filler.views);
      spans := spans - {k};
      if emptied {
        ThreadsAdd(threads, old(filler.parked), thread, Waiting(sp.pt, partial));
        threads := threads[thread := Waiting(sp.pt, partial)];
      }
      RunWhole();
    }

    /** Finish to free, with the lock held again. */
    method FreeEnd(thread: nat, success: bool)
      requires Valid()
      modifies this, filler, filler.lists.Values, filler.views.Keys
      ensures Valid() && filler.views.Keys <= old(filler.views).Keys
    {
      hide *;
      if thread !in threads { return; }
      RunParts();
      ParkedThread(threads, filler.parked, thread);
      ghost var v := filler.views;
      var w := threads[thread];
      EmptyParked(w.pt);
      var r := filler.PutFinish(w.pt, w.partial, success);
      ThreadsDrop(threads, old(filler.parked), thread);
      threads := threads - {thread};
      if r != null {
        LeaveFrame(v, w.pt);
        PhaseFrame(phase, now, v, filler.views, filler.sampled, filler.chosen);
        SpansLeave(spans, v, w.pt);
        HandOut(handed, born, v, w.pt);
        handed := handed + [w.pt];
      }
      RunWhole();
    }

    lemma EmptyParked(t: PageTracker)
      requires filler.Valid() && t in filler.parked
      ensures t in filler.views && filler.views[t].allocs == {}
    {
      hide HugePageFiller.Linked, HugePageFiller.Tallied, Kept, Holds, Idle;
      filler.ValidParts();
      filler.Parts();
      ParkedSane(filler.order, filler.fullyFreed, filler.parked, filler.views, filler.board, filler.mode, t);
      ParkedIdle(filler.parked, filler.views, t);
      NoAllocs(filler.views[t]);
    }

    /** Release free pages. */
    method Release(desired: nat, releasePartial: bool, partial: nat, skip: bool, reduced: nat, hitLimit: bool, unback: (nat, nat, nat) -> bool)
      requires Valid()
      modifies this, filler, filler.lists.Values, filler.views.Keys
      ensures Valid() && filler.views.Keys == old(filler.views).Keys
    {
      hide *;
      RunParts();
      ghost var v := filler.views;
      var total := filler.ReleasePages(desired, releasePartial, partial, skip, reduced, hitLimit, unback, false);
      SubsidedFrame(v, filler.views, filler.mode, false);
      SubsidedKeys(v, filler.views, filler.mode, false);
      PhaseFrame(phase, now, v, filler.views, filler.sampled, filler.chosen);
      SpansFrame(spans, v, filler.views);
      HandedFrame(handed, born, v, filler.views);
      RunWhole();
    }

    /** A treatment pass picks its trackers, unless one is under way. */
    method Select(sampleOk: PageTracker -> bool, collapseOk: PageTracker -> bool, objects: PageTracker -> nat)
      requires Valid()
      modifies this, filler, filler.lists.Values, filler.views.Keys
      ensures Valid() && filler.views.Keys == old(filler.views).Keys
    {
      hide *;
      if phase != Calm { return; }
      RunParts();
      PhaseCalm(now, filler.views, filler.sampled, filler.chosen);
      ghost var v := filler.views;
      var q1, q2 := filler.SelectTrackers(sampleOk, collapseOk, objects);
      SameKeys(v, filler.views);
      ShapeAllocs(v, filler.views);
      SpansFrame(spans, v, filler.views);
      HandedFrame(handed, born, v, filler.views);
      PhaseStart(filler.views, filler.sampled, filler.chosen, q1, q2);
      phase := Treating(q1, q2);
      RunWhole();
    }

    /** The pass starts to collapse its `k`-th pick. */
    method StartCollapse(k: nat)
      requires Valid()
      modifies this, filler, filler.lists.Values, filler.views.Keys
      ensures Valid() && filler.views.Keys == old(filler.views).Keys
    {
      hide *;
      if phase == Calm || now != null || k >= |phase.q2| { return; }
      RunParts();
      ghost var v := filler.views;
      PhaseIdle(phase, filler.views, filler.sampled, filler.chosen, k);
      var pt := phase.q2[k];
      var ok := filler.CollapseStart(pt);
      CollapsingAllocs(v, pt, ok);
      SpansFrame(spans, v, filler.views);
      HandedFrame(handed, born, v, filler.views);
      PhaseCollapsing(phase, v, filler.sampled, filler.chosen, k, ok);
      now := if ok then pt else null;
      RunWhole();
    }

    /** The pass is done collapsing. */
    method StopCollapse()
      requires Valid()
      modifies this, filler, filler.lists.Values, filler.views.Keys
      ensures Valid() && filler.views.Keys == old(filler.views).Keys
    {
      hide *;
      if now == null { return; }
      RunParts();
      ghost var v := filler.views;
      PhaseBusy(phase, now, v, filler.sampled, filler.chosen);
      filler.CollapseStop(now);
      CollapsingAllocs(v, now, false);
      SpansFrame(spans, v, filler.views);
      HandedFrame(handed, born, v, filler.views);
      PhaseDone(phase, now, v, filler.sampled, filler.chosen);
      now := null;
      RunWhole();
    }

    /** The pass gives its trackers back. */
    method Restore(results: PageTracker -> Residency, unback: (nat, nat, nat) -> bool)
      requires Valid()
      modifies this, filler, filler.lists.Values, filler.views.Keys
      ensures Valid() && filler.views.Keys == old(filler.views).Keys
    {
      hide *;
      if phase == Calm || now != null { return; }
      RunParts();
      ghost var v := filler.views;
      PhaseEnd(phase, v, filler.sampled, filler.chosen);
      filler.Restore(phase.q1, phase.q2, results, unback);
      SpansFrame(spans, v, filler.views);
      HandedFrame(handed, born, v, filler.views);
      phase := Calm;
      CalmOk(filler.views);
      RunWhole();
    }

    /** A tracker that became empty under a treatment is picked up. */
    method Fetch()
      requires Valid()
      modifies this, filler, filler.lists.Values, filler.views.Keys
      ensures Valid() && filler.views.Keys <= old(filler.views).Keys
    {
      hide *;
      if phase != Calm { return; }
      RunParts();
      ghost var v := filler.views;
      PhaseCalm(now, filler.views, filler.sampled, filler.chosen);
      if filler.fullyFreed != [] { EmptyFreed(); }
      var r := filler.FetchFullyFreedTracker();
      if r != null {
        SpansLeave(spans, v, r);
        HandOut(handed, born, v, r);
        handed := handed + [r];
      }
      CalmOk(filler.views);
      RunWhole();
    }

    lemma EmptyFreed()
      requires filler.Valid() && filler.fullyFreed != []
      ensures filler.fullyFreed[0] in filler.views && filler.views[filler.fullyFreed[0]].allocs == {}
    {
      hide *;
      filler.ValidParts();
      filler.Parts();
      KeptPick(filler.order, filler.fullyFreed, filler.parked, filler.views, filler.board, filler.mode);
      NoAllocs(filler.views[filler.fullyFreed[0]]);
    }
  }

  /** What one thread does while it holds the lock. */
  datatype Step =
    | GrowStep(k: nat, n: nat, donate: bool, dense: bool)
    | AllocStep(k: nat, n: nat, dense: bool)
    | FreeBeginStep(k: nat, thread: nat)
    | FreeEndStep(thread: nat, success: bool)
    | ReleaseStep(desired: nat, releasePartial: bool, partial: nat, skip: bool, reduced: nat, hitLimit: bool, unback: (nat, nat, nat) -> bool)
    | SelectStep(sampleOk: PageTracker -> bool, collapseOk: PageTracker -> bool, objects: PageTracker -> nat)
    | StartCollapseStep(k: nat)
    | StopCollapseStep
    | RestoreStep(results: PageTracker -> Residency, unback: (nat, nat, nat) -> bool)
    | FetchStep

  method Take(r: FillerRun, step: Step)
    requires r.Valid()
    modifies r, r.filler, r.filler.lists.Values, r.filler.views.Keys
    ensures r.Valid() && fresh(r.filler.views.Keys - old(r.filler.views).Keys)
  {
    hide *;
    match step
    case GrowStep(k, n, donate, dense) => r.Grow(k, n, donate, dense);
    case AllocStep(k, n, dense) => r.Alloc(k, n, dense);
    case FreeBeginStep(k, thread) => r.FreeBegin(k, thread);
    case FreeEndStep(thread, success) => r.FreeEnd(thread, success);
    case ReleaseStep(desired, releasePartial, partial, skip, reduced, hitLimit, unback) =>
      r.Release(desired, releasePartial, partial, skip, reduced, hitLimit, unback);
    case SelectStep(sampleOk, collapseOk, objects) => r.Select(sampleOk, collapseOk, objects);
    case StartCollapseStep(k) => r.StartCollapse(k);
    case StopCollapseStep => r.StopCollapse();
    case RestoreStep(results, unback) => r.Restore(results, unback);
    case FetchStep => r.Fetch();
  }

  /** However the steps are interleaved, everything is in order after every one of them
      (every prefix of a run is a run). */
  method RunAll(r: FillerRun, steps: seq<Step>)
    requires r.Valid()
    modifies r, r.filler, r.filler.lists.Values, r.filler.views.Keys
    ensures r.Valid()
  {
    hide *;
    for k := 0 to |steps|
      invariant r.Valid() && fresh(r.filler.views.Keys - old(r.filler.views).Keys)
    {
      Take(r, steps[k]);
    }
  }

  lemma PhaseCalm(now: PageTracker?, views: Views, sampled: set<PageTracker>, chosen: set<PageTracker>)
    requires PhaseOk(Calm, now, views, sampled, chosen)
    ensures sampled == {} && chosen == {} && now == null
  {
  }

  lemma CalmOk(views: Views)
    ensures PhaseOk(Calm, null, views, {}, {})
  {
  }

  lemma PhaseStart(views: Views, sampled: set<PageTracker>, chosen: set<PageTracker>, q1: seq<PageTracker>, q2: seq<PageTracker>)
    requires Picks(views, sampled, chosen, q1, q2) && NoneCollapsing(views)
    ensures PhaseOk(Treating(q1, q2), null, views, sampled, chosen)
  {
  }

  lemma PhaseIdle(phase: Phase, views: Views, sampled: set<PageTracker>, chosen: set<PageTracker>, k: nat)
    requires PhaseOk(phase, null, views, sampled, chosen) && phase.Treating? && k < |phase.q2| && Holds(views, sampled, chosen)
    ensures phase.q2[k] in chosen && phase.q2[k] in views && !views[phase.q2[k]].flags.collapsing
  {
    assert phase.q2[k] in SetOf(phase.q2);
  }

  lemma PhaseCollapsing(phase: Phase, views: Views, sampled: set<PageTracker>, chosen: set<PageTracker>, k: nat, ok: bool)
    requires PhaseOk(phase, null, views, sampled, chosen) && phase.Treating? && k < |phase.q2| && phase.q2[k] in views && phase.q2[k] in chosen
    ensures PhaseOk(phase, if ok then phase.q2[k] else null, views[phase.q2[k] := WithCollapsing(views[phase.q2[k]], ok)], sampled, chosen)
  {
  }

  lemma PhaseBusy(phase: Phase, now: PageTracker?, views: Views, sampled: set<PageTracker>, chosen: set<PageTracker>)
    requires PhaseOk(phase, now, views, sampled, chosen) && now != null && Holds(views, sampled, chosen)
    ensures phase.Treating? && now in chosen && now in views && views[now].flags.collapsing
  {
  }

  lemma PhaseDone(phase: Phase, now: PageTracker?, views: Views, sampled: set<PageTracker>, chosen: set<PageTracker>)
    requires PhaseOk(phase, now, views, sampled, chosen) && now != null && now in views
    ensures PhaseOk(phase, null, views[now := WithCollapsing(views[now], false)], sampled, chosen)
  {
  }

  lemma PhaseEnd(phase: Phase, views: Views, sampled: set<PageTracker>, chosen: set<PageTracker>)
    requires PhaseOk(phase, null, views, sampled, chosen) && phase.Treating?
    ensures NoDup(phase.q1) && NoDup(phase.q2) && SetOf(phase.q1) == sampled && SetOf(phase.q2) == chosen && NoneCollapsing(views)
  {
  }

  lemma CollapsingAllocs(views: Views, t: PageTracker, v: bool)
    requires t in views
    ensures SameAllocs(views, views[t := WithCollapsing(views[t], v)]) && views[t := WithCollapsing(views[t], v)].Keys == views.Keys
  {
  }

  lemma HasAlloc(s: State, a: Piece)
    requires Sane(s) && a in s.allocs
    ensures s.free.longest < PAGES
  {
    assert a.start in Run(a.start, a.len);
    LongestExtremes(s.free);
  }

  lemma FreshLongest(pt: PageTracker, donate: bool)
    requires pt.Now() == Fresh(donate)
    ensures pt.free.longest == PAGES
  {
  }

  lemma JoinFrame(views: Views, t: PageTracker, s: State, donate: bool, dense: bool)
    requires t !in views && Contributable(s, donate, dense)
    ensures SameCollapsing(views, views[t := Contributed(s, donate, dense)]) && Contributed(s, donate, dense).allocs == s.allocs
  {
  }

  lemma BornMore(handed: seq<PageTracker>, born: set<PageTracker>, views: Views, t: PageTracker, s: State)
    requires HandedOk(handed, born, views) && t !in born
    ensures HandedOk(handed, born + {t}, views[t := s])
  {
  }

  lemma HandedFrame(handed: seq<PageTracker>, born: set<PageTracker>, views: Views, views': Views)
    requires HandedOk(handed, born, views) && views'.Keys == views.Keys
    ensures HandedOk(handed, born, views')
  {
  }

  lemma ServedNew(views: Views, views': Views, t: PageTracker, n: nat, i: nat)
    requires Served(views, views', t, n, i) && t in views && Ok(views[t])
    ensures Piece(i, n) !in views[t].allocs
  {
    PieceNew(views[t], n, i);
  }

  lemma ParkedThread(threads: Threads, parked: set<PageTracker>, k: nat)
    requires ThreadsOk(threads, parked) && k in threads
    ensures threads[k].pt in parked
  {
  }
}

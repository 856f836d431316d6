/** The hugepage-aware allocator: small allocations go to the filler, large ones straight
    to the cache of hugepages (tcmalloc/huge_page_aware_allocator.h). */
module PageHeap {
  import opened Arithmetic
  import opened Lists
  import opened HugePages
  import opened Treap
  import opened TreapSearch
  import opened AddressMap
  import opened Allocator
  import opened Cache
  import opened RangeTrackers
  import opened PageTrackers
  import opened FillerLists
  import opened FillerBooks
  import opened FillerKeep
  import opened FillerPick
  import opened FillerPut
  import opened FillerRelease
  import opened FillerTreat
  import opened FillerRuns
  import opened HintedLists
  import opened Filler
  import opened PageHeapBooks

  /** Allocations up to here are packed by the filler. */
  const SMALL_ALLOC_PAGES: nat := PAGES / 2

  /** What the cache learns from clocks and the kernel while hugepages are released to it. */
  datatype Env = Env(stale: bool, min: nat, unback: (nat, nat) -> bool, unbackRest: bool)

  /** The longest length in pages of 8 KiB, `Length::max()`. */
  const MAX_LENGTH: nat := 0x7_FFFF_FFFF_FFFF

  class HugePageAwareAllocator {
    const cache: HugeCache
    const filler: HugePageFiller
    var trackers: map<nat, PageTracker>
    var donatedHugePages: nat
    var abandonedPages: nat

    /** The live allocations, and the live trackers. */
    ghost var live: seq<Alloc>
    ghost var roster: seq<PageTracker>

    /** No operation is in the middle of something. */
    ghost predicate Quiet()
      reads cache`unbacking, filler`parked, filler`fullyFreed, filler`sampled, filler`chosen
    {
      cache.unbacking == {} && filler.parked == {} && filler.fullyFreed == [] && filler.sampled == {} && filler.chosen == {}
    }

    /** All is in order, but for the hugepages `loose`, and `donatedHugePages`, which is `ahead`. */
    ghost predicate Sound(loose: set<int>, ahead: int)
      reads this, cache, cache.cache, cache.cache.links.Keys, cache.allocator, cache.allocator.free, cache.allocator.free.links.Keys
      reads filler, filler.views.Keys, filler.lists.Values
    {
      cache.Valid() && filler.Valid() && Quiet() &&
      Ledger(cache.user, live, filler.views, loose, trackers, roster, donatedHugePages - ahead, abandonedPages, filler.Used())
    }

    ghost predicate Valid()
      reads this, cache, cache.cache, cache.cache.links.Keys, cache.allocator, cache.allocator.free, cache.allocator.free.links.Keys
      reads filler, filler.views.Keys, filler.lists.Values
    {
      Sound({}, 0)
    }

    constructor (cache: HugeCache, filler: HugePageFiller)
      requires cache.Valid() && cache.user == {} && cache.unbacking == {}
      requires filler.Valid() && filler.views == map[] && filler.Used() == 0
      requires filler.parked == {} && filler.fullyFreed == [] && filler.sampled == {} && filler.chosen == {}
      ensures Valid() && this.cache == cache && this.filler == filler
      ensures live == [] && donatedHugePages == 0 && abandonedPages == 0
    {
      hide *;
      this.cache, this.filler := cache, filler;
      trackers, donatedHugePages, abandonedPages, live, roster := map[], 0, 0, [], [];
      new;
      LedgerEmpty();
      Whole({}, 0);
      ValidWhole();
    }

    lemma ValidWhole()
      requires Sound({}, 0)
      ensures Valid()
    {
    }

    lemma ValidParts()
      requires Valid()
      ensures Sound({}, 0)
    {
    }

    lemma Parts(loose: set<int>, ahead: int)
      requires Sound(loose, ahead)
      ensures cache.Valid() && filler.Valid() && Quiet()
      ensures Ledger(cache.user, live, filler.views, loose, trackers, roster, donatedHugePages - ahead, abandonedPages, filler.Used())
      ensures cache.unbacking == {} && filler.parked == {} && filler.fullyFreed == [] && filler.sampled == {} && filler.chosen == {}
    {
    }

    // The comparisons with true keep what is known here in one piece for the caller.
    lemma Whole(loose: set<int>, ahead: int)
      requires true == cache.Valid()
      requires true == filler.Valid()
      requires true == Ledger(cache.user, live, filler.views, loose, trackers, roster, donatedHugePages - ahead, abandonedPages, filler.Used())
      requires cache.unbacking == {} && filler.parked == {} && filler.fullyFreed == [] && filler.sampled == {} && filler.chosen == {}
      ensures Sound(loose, ahead)
    {
    }

    // ----- what is conserved -----

    /** The cache's usage is the hugepages that allocations have for themselves, and one for each tracker. */
    lemma UsageConserved()
      requires Valid()
      ensures cache.usage == ExclSum(live) + |filler.views|
    {
      hide HugePageFiller.Valid, LiveOk, TrackersOk, Telemetry, HugeAddressMap.Valid, HugeAllocator.Valid;
    }

    /** The hugepages of live allocations and of trackers are all different, and the user has no others. */
    lemma NobodyShares(j: nat, k: nat, p: int)
      requires Valid() && j < |live| && k < |live| && p in Pages(live[j].excl)
      ensures p in cache.user && (j != k ==> p !in Pages(live[k].excl)) && forall t :: t in filler.views ==> t.location != p
    {
      hide HugePageFiller.Valid, LiveOk, TrackersOk, Telemetry, HugeAddressMap.Valid, HugeAllocator.Valid;
    }

    /** Two live allocations have no page in common. */
    lemma NoOverlap(j: nat, k: nat, q: nat)
      requires Valid() && j < |live| && k < |live| && j != k && live[j].p <= q < live[j].p + live[j].n
      ensures !(live[k].p <= q < live[k].p + live[k].n)
    {
      hide HugePageFiller.Valid, HugeCache.Valid, TrackersOk, Telemetry, Ok, Shape;
      filler.AllKnownOk();
      assert Shape(live[j]) && Shape(live[k]) && Backing(live[j], filler.views) && Backing(live[k], filler.views);
      PageIn(live[j], q);
      PageIn(live[k], q);
      if j < k { assert Differ(live[j], live[k]); } else { assert Differ(live[k], live[j]); }
      if live[j].pt != null && live[j].pt == live[k].pt {
        PiecesApart(filler.views[live[j].pt], live[j].piece, live[k].piece);
      }
    }

    lemma LivePages(k: nat)
      requires Valid() && k < |live|
      ensures live[k].n > 0
    {
      hide HugePageFiller.Valid, HugeCache.Valid, TrackersOk, Telemetry, Ok, Occupied;
      assert Shape(live[k]);
    }

    /** What came from the system is in use, free or unmapped. */
    method Stats() returns (system: nat, free: nat, unmapped: nat)
      requires Valid()
      ensures system == cache.allocator.fromSystem * PAGES == PageSum(live) + free + unmapped
      ensures unmapped == cache.allocator.free.totalSize * PAGES + filler.unmapped
    {
      hide HugePageFiller.Valid, HugeCache.Valid, HugeAllocator.Valid, TrackersOk, Telemetry, Shape, Backing, Differ, HugeCache.Consistent;
      UsageConserved();
      cache.Accounted();
      filler.SizeIs();
      PagesAddUp(live);
      system := cache.allocator.fromSystem * PAGES;
      free := cache.size * PAGES + (filler.size * PAGES - filler.pagesAllocated.sparse - filler.pagesAllocated.dense - filler.unmapped);
      unmapped := cache.allocator.free.totalSize * PAGES + filler.unmapped;
    }

    // ----- allocating -----

    /** A new tracker for the hugepage `hp`, with the first `n` pages in use. */
    static method MakeTracker(hp: nat, n: nat, donated: bool, dense: bool) returns (pt: PageTracker)
      requires 0 < n < PAGES && (dense ==> n == 1 && !donated)
      ensures fresh(pt) && pt.location == hp && Contributable(pt.Now(), donated, dense) && pt.Now().allocs == {Piece(0, n)}
      ensures pt.free.nused == n && pt.Now().flags.wasDonated == donated && !pt.Now().flags.abandoned
      ensures pt.Now().flags.abandonedCount == if donated then n else 0
    {
      hide Ok, Got, RangeTracker.Valid, Run;
      pt := new PageTracker(hp, donated);
      if donated {
        FlagsOk(pt.Now(), pt.flags.(abandonedCount := n));
        pt.flags := pt.flags.(abandonedCount := n);
      }
      ghost var s := pt.Now();
      var i, u := pt.Get(n);
      FirstPages(s, pt.Now(), n, i, u, donated, dense);
    }

    /** Give the hugepage `hp` a tracker that serves `n` pages. */
    method AllocAndContribute(hp: nat, n: nat, dense: bool, donated: bool, ghost excl: HugeRange, ghost p: nat, ghost loose: set<int>)
      returns (page: nat, pt: PageTracker)
      requires Sound(loose, if donated then 1 else 0) && hp in loose && 0 < n < PAGES && (dense ==> n == 1 && !donated)
      requires Pages(excl) <= loose - {hp}
      requires if excl.len == 0 then p == hp * PAGES else donated && p == excl.start * PAGES && hp == excl.End()
      modifies this`trackers, this`live, this`roster, filler, filler.lists.Values
      ensures fresh(pt) && pt.location == hp && page == hp * PAGES && Sound(loose - {hp} - Pages(excl), 0)
      ensures live == [Alloc(p, excl.len * PAGES + n, donated, excl, pt, Piece(0, n))] + old(live)
      ensures filler.views.Keys == old(filler.views).Keys + {pt} && trackers == old(trackers)[hp := pt]
    {
      hide *;
      pt := MakeTracker(hp, n, donated, dense);
      ContributeNew(pt, n, dense, donated, excl, p, loose);
      page := hp * PAGES;
    }

    method ContributeNew(pt: PageTracker, n: nat, dense: bool, donated: bool, ghost excl: HugeRange, ghost p: nat, ghost loose: set<int>)
      requires Sound(loose, if donated then 1 else 0) && pt.location in loose && 0 < n < PAGES && (dense ==> n == 1 && !donated)
      requires Pages(excl) <= loose - {pt.location} && pt !in filler.views
      requires if excl.len == 0 then p == pt.location * PAGES else donated && p == excl.start * PAGES && pt.location == excl.End()
      requires Contributable(pt.Now(), donated, dense) && pt.Now().allocs == {Piece(0, n)} && pt.free.nused == n
      requires pt.Now().flags.wasDonated == donated && !pt.Now().flags.abandoned && pt.Now().flags.abandonedCount == if donated then n else 0
      modifies this`trackers, this`live, this`roster, filler, filler.lists.Values, pt`flags
      ensures Sound(loose - {pt.location} - Pages(excl), 0)
      ensures live == [Alloc(p, excl.len * PAGES + n, donated, excl, pt, Piece(0, n))] + old(live)
      ensures filler.views.Keys == old(filler.views).Keys + {pt} && trackers == old(trackers)[pt.location := pt]
    {
      hide *;
      ghost var ahead := if donated then 1 else 0;
      Parts(loose, ahead);
      ghost var s := pt.Now();
      ghost var a := Alloc(p, excl.len * PAGES + n, donated, excl, pt, Piece(0, n));
      JoinShape(a, s, donated, dense);
      BooksJoin(cache.user, live, filler.views, loose, trackers, roster, donatedHugePages - ahead, abandonedPages, filler.Used(), pt,
                Contributed(s, donated, dense), a);
      filler.Contribute(pt, donated, dense);
      trackers := trackers[pt.location := pt];
      live, roster := [a] + live, [pt] + roster;
      Whole(loose - {pt.location} - Pages(excl), 0);
    }

    /** Serve `n` pages from a hugepage that is in the filler. */
    method FromFiller(n: nat, dense: bool) returns (page: nat, ok: bool, fromReleased: bool, ghost at: PageTracker?)
      requires Valid() && 0 < n < PAGES && (dense ==> n == 1)
      modifies this`live, filler, filler.lists.Values, filler.views.Keys
      ensures Valid() && filler.views.Keys == old(filler.views).Keys
      ensures ok <==> !NoRoom(old(filler.order), old(filler.views), n, dense)
      ensures !ok ==> live == old(live)
      ensures ok ==> (at != null && at in filler.views && page >= at.location * PAGES &&
                      live == [Alloc(page, n, false, NIL, at, Piece(page - at.location * PAGES, n))] + old(live))
    {
      hide *;
      ValidParts();
      Parts({}, 0);
      filler.AllKnownOk();
      ghost var v, used := filler.views, filler.Used();
      var pt, i, released := filler.TryGet(n, dense);
      page, ok, fromReleased, at := 0, pt != null, released, pt;
      if pt != null {
        BestFits(old(filler.order), v, filler.mode, n, dense, pt);
        BooksServed(cache.user, live, v, {}, trackers, roster, donatedHugePages, abandonedPages, used, filler.views, pt, n, i);
        ServedFrame(v, filler.views, pt, n, i);
        page := pt.location * PAGES + i;
        live := [Alloc(page, n, false, NIL, pt, Piece(i, n))] + live;
      }
      Whole({}, 0);
      ValidWhole();
    }

    /** Get `n` hugepages from the cache; they are loose until put to use. */
    method TakeHugepages(n: nat, os: HugeRange, dip: nat) returns (r: HugeRange, fromReleased: bool)
      requires Valid() && n > 0 && (os.Valid() ==> os.len >= n && Pages(os) !! cache.allocator.system)
      modifies cache, cache.cache, cache.allocator, cache.allocator.free, cache.Mem()
      ensures fresh(cache.Mem() - old(cache.Mem())) && SystemGrew(old(cache.allocator.system), cache.allocator.system, os)
      ensures r.Valid() <==> old(cache.CanServe(n, os))
      ensures if r.Valid() then r.len == n && Sound(Pages(r), 0) else Valid()
    {
      hide *;
      ValidParts();
      Parts({}, 0);
      ghost var u := cache.user;
      r, fromReleased := cache.Get(n, os, dip);
      GrewBy(old(cache.allocator.system), cache.allocator.system, os);
      if r.Valid() {
        BooksGet(u, live, filler.views, trackers, roster, donatedHugePages, abandonedPages, filler.Used(), Pages(r));
        Whole(Pages(r), 0);
      } else {
        NilPages();
        assert u + {} == u;
        Whole({}, 0);
        ValidWhole();
      }
    }

    /** Bring a hugepage from the cache into the filler to serve `n` pages. */
    method RefillFiller(n: nat, dense: bool, os: HugeRange, dip: nat) returns (page: nat, ok: bool, fromReleased: bool, ghost at: PageTracker?)
      requires Valid() && 0 < n < PAGES && (dense ==> n == 1)
      requires os.Valid() ==> os.len >= 1 && Pages(os) !! cache.allocator.system
      modifies this`trackers, this`live, this`roster, filler, filler.lists.Values
      modifies cache, cache.cache, cache.allocator, cache.allocator.free, cache.Mem()
      ensures Valid() && fresh(cache.Mem() - old(cache.Mem())) && SystemGrew(old(cache.allocator.system), cache.allocator.system, os)
      ensures ok <==> old(cache.CanServe(1, os))
      ensures if ok then fresh(at) && filler.views.Keys == old(filler.views).Keys + {at} && page == at.location * PAGES &&
                         live == [Alloc(page, n, false, NIL, at, Piece(0, n))] + old(live)
              else live == old(live) && filler.views == old(filler.views)
    {
      hide *;
      var r;
      r, fromReleased := TakeHugepages(1, os, dip);
      page, ok, at := 0, r.Valid(), null;
      if r.Valid() {
        OnePage(r);
        var pt;
        page, pt := AllocAndContribute(r.start, n, dense, false, NIL, r.start * PAGES, Pages(r));
        ValidWhole();
        at := pt;
      }
    }

    /** Small allocations are packed: on a hugepage with room, or on a new one. */
    method AllocSmall(n: nat, dense: bool, os: HugeRange, dip: nat) returns (page: nat, ok: bool, fromReleased: bool, ghost at: PageTracker?)
      requires Valid() && 0 < n < PAGES && (dense ==> n == 1)
      requires os.Valid() ==> os.len >= 1 && Pages(os) !! cache.allocator.system
      modifies this`trackers, this`live, this`roster, filler, filler.lists.Values, filler.views.Keys
      modifies cache, cache.cache, cache.allocator, cache.allocator.free, cache.Mem()
      ensures Valid() && fresh(cache.Mem() - old(cache.Mem())) && SystemGrew(old(cache.allocator.system), cache.allocator.system, os)
      ensures fresh(filler.views.Keys - old(filler.views).Keys)
      ensures ok <==> !NoRoom(old(filler.order), old(filler.views), n, dense) || old(cache.CanServe(1, os))
      ensures !NoRoom(old(filler.order), old(filler.views), n, dense) ==> filler.views.Keys == old(filler.views.Keys) && cache.user == old(cache.user)
      ensures if ok then at != null && page >= at.location * PAGES && live == [Alloc(page, n, false, NIL, at, Piece(page - at.location * PAGES, n))] + old(live)
              else live == old(live)
    {
      hide *;
      page, ok, fromReleased, at := FromFiller(n, dense);
      GrewSelf(old(cache.allocator.system), cache.allocator.system, os);
      if ok { return; }
      ghost var mem, keys := cache.Mem(), filler.views.Keys;
      assert mem == old(cache.Mem()) && cache.CanServe(1, os) == old(cache.CanServe(1, os));
      label Before:
      page, ok, fromReleased, at := RefillFiller(n, dense, os, dip);
      forall o: object? | (o in cache.Mem() && o !in mem) || (o in filler.views.Keys && o !in keys)
        ensures fresh(o)
      {
        assert o in cache.Mem() && o !in mem ==> fresh@Before(o);
      }
    }

    /** Large allocations: exact multiples of a hugepage get hugepages of their own, the others
        may fit on a hugepage of the filler. */
    method AllocLarge(n: nat, os: HugeRange, dip: nat) returns (page: nat, ok: bool, fromReleased: bool, donated: bool, ghost a: Alloc)
      requires Valid() && n > 0 && (os.Valid() ==> os.len >= HugeLengthFromPages(n) && Pages(os) !! cache.allocator.system)
      modifies this`trackers, this`live, this`roster, this`donatedHugePages, filler, filler.lists.Values, filler.views.Keys
      modifies cache, cache.cache, cache.allocator, cache.allocator.free, cache.Mem()
      ensures Valid() && fresh(cache.Mem() - old(cache.Mem())) && SystemGrew(old(cache.allocator.system), cache.allocator.system, os)
      ensures fresh(filler.views.Keys - old(filler.views).Keys)
      ensures ok <==> (n < PAGES && !NoRoom(old(filler.order), old(filler.views), n, false)) || old(cache.CanServe(HugeLengthFromPages(n), os))
      ensures n < PAGES && !NoRoom(old(filler.order), old(filler.views), n, false) ==> filler.views.Keys == old(filler.views.Keys) && cache.user == old(cache.user)
      ensures if ok then live == [a] + old(live) && a.p == page && a.n == n && a.donated == donated && (n % PAGES == 0 || n > PAGES ==> page % PAGES == 0)
              else live == old(live)
    {
      hide *;
      WholePages(n, HugeLengthFromPages(n));
      ghost var mem, keys := cache.Mem(), filler.views.Keys;
      donated := false;
      if n < PAGES && HugeLengthFromPages(n) * PAGES != n {
        ghost var at;
        page, ok, fromReleased, at := FromFiller(n, false);
        if ok {
          a := Alloc(page, n, false, NIL, at, Piece(page - at.location * PAGES, n));
          GrewSelf(old(cache.allocator.system), cache.allocator.system, os);
          return;
        }
      }
      assert cache.Mem() == mem && filler.views.Keys == keys && live == old(live) && cache.allocator.system == old(cache.allocator.system);
      label Before:
      page, ok, fromReleased, donated, a := AllocRawHugepages(n, os, dip);
      forall o: object? | (o in cache.Mem() && o !in mem) || (o in filler.views.Keys && o !in keys)
        ensures fresh(o)
      {
        assert fresh@Before(o);
      }
    }

    /** `LockAndAlloc`: the policy depends on the size. */
    method New(n: nat, dense: bool, os: HugeRange, dip: nat) returns (page: nat, ok: bool, fromReleased: bool, donated: bool, ghost a: Alloc)
      requires Valid() && n > 0 && (dense ==> n == 1 || n % PAGES == 0) && (os.Valid() ==> os.len >= HugeLengthFromPages(n) && Pages(os) !! cache.allocator.system)
      modifies this`trackers, this`live, this`roster, this`donatedHugePages, filler, filler.lists.Values, filler.views.Keys
      modifies cache, cache.cache, cache.allocator, cache.allocator.free, cache.Mem()
      ensures Valid() && fresh(cache.Mem() - old(cache.Mem())) && SystemGrew(old(cache.allocator.system), cache.allocator.system, os)
      ensures fresh(filler.views.Keys - old(filler.views).Keys)
      ensures ok <==> (n < PAGES && !NoRoom(old(filler.order), old(filler.views), n, dense)) || old(cache.CanServe(HugeLengthFromPages(n), os))
      ensures if ok then live == [a] + old(live) && a.p == page && a.n == n && a.donated == donated else live == old(live)
    {
      hide *;
      WholePages(n, HugeLengthFromPages(n));
      donated := false;
      if n <= SMALL_ALLOC_PAGES {
        ghost var at;
        page, ok, fromReleased, at := AllocSmall(n, dense, os, dip);
        a := Alloc(page, n, false, NIL, at, if ok then Piece(page - at.location * PAGES, n) else Piece(0, 0));
      } else {
        page, ok, fromReleased, donated, a := AllocLarge(n, os, dip);
      }
    }

    /** Anything aligned gets hugepages of its own, so its first page starts a hugepage. No part of a
        densely accessed span may be donated. */
    method NewAligned(n: nat, align: nat, dense: bool, os: HugeRange, dip: nat) returns (page: nat, ok: bool, fromReleased: bool, donated: bool, ghost a: Alloc)
      requires Valid() && n > 0 && align <= PAGES && (dense ==> n % PAGES == 0 || (n == 1 && align <= 1))
      requires os.Valid() ==> os.len >= HugeLengthFromPages(n) && Pages(os) !! cache.allocator.system
      modifies this`trackers, this`live, this`roster, this`donatedHugePages, filler, filler.lists.Values, filler.views.Keys
      modifies cache, cache.cache, cache.allocator, cache.allocator.free, cache.Mem()
      ensures Valid() && fresh(cache.Mem() - old(cache.Mem())) && SystemGrew(old(cache.allocator.system), cache.allocator.system, os)
      ensures fresh(filler.views.Keys - old(filler.views).Keys)
      ensures align > 1 ==> (ok <==> old(cache.CanServe(HugeLengthFromPages(n), os)))
      ensures if ok then live == [a] + old(live) && a.p == page && a.n == n && a.donated == donated && (align > 1 ==> page % PAGES == 0) else live == old(live)
    {
      hide *;
      if align <= 1 {
        page, ok, fromReleased, donated, a := New(n, dense, os, dip);
      } else {
        page, ok, fromReleased, donated, a := AllocRawHugepages(n, os, dip);
      }
    }

    /** Large allocations get hugepages for themselves; what is left of the last one is
        donated to the filler. */
    method AllocRawHugepages(n: nat, os: HugeRange, dip: nat) returns (page: nat, ok: bool, fromReleased: bool, donated: bool, ghost a: Alloc)
      requires Valid() && n > 0 && (os.Valid() ==> os.len >= HugeLengthFromPages(n) && Pages(os) !! cache.allocator.system)
      modifies this`trackers, this`live, this`roster, this`donatedHugePages, filler, filler.lists.Values
      modifies cache, cache.cache, cache.allocator, cache.allocator.free, cache.Mem()
      ensures Valid() && fresh(cache.Mem() - old(cache.Mem())) && SystemGrew(old(cache.allocator.system), cache.allocator.system, os)
      ensures fresh(filler.views.Keys - old(filler.views).Keys)
      ensures ok <==> old(cache.CanServe(HugeLengthFromPages(n), os))
      ensures if ok then live == [a] + old(live) && a.p == page && a.n == n && a.donated == donated == (n % PAGES != 0) && page % PAGES == 0
              else live == old(live)
    {
      hide *;
      var hl := HugeLengthFromPages(n);
      WholePages(n, hl);
      var r;
      r, fromReleased := TakeHugepages(hl, os, dip);
      page, ok, donated, a := 0, r.Valid(), false, Alloc(0, 0, false, NIL, null, Piece(0, 0));
      if !r.Valid() { return; }
      AllButLast(r);
      page := r.start * PAGES;
      donated := hl * PAGES - n != 0;
      a := UseHugepages(r, n, hl * PAGES - n);
    }

    /** Put the hugepages `r` to use for an allocation of `n` pages. */
    method UseHugepages(r: HugeRange, n: nat, slack: nat) returns (ghost a: Alloc)
      requires Sound(Pages(r), 0) && n > 0 && r.len == HugeLengthFromPages(n) && slack == r.len * PAGES - n
      modifies this`trackers, this`live, this`roster, this`donatedHugePages, filler, filler.lists.Values
      ensures Valid() && fresh(filler.views.Keys - old(filler.views).Keys)
      ensures live == [a] + old(live) && a.p == r.start * PAGES && a.n == n && a.donated == (n % PAGES != 0)
    {
      hide *;
      WholePages(n, r.len);
      AllButLast(r);
      Parts(Pages(r), 0);
      EndsLoose(cache.user, live, filler.views, trackers, roster, donatedHugePages, abandonedPages, filler.Used(), r);
      trackers := trackers - {r.start};
      if slack == 0 {
        trackers := trackers - {r.start + r.len - 1};
        a := Alloc(r.start * PAGES, n, false, r, null, Piece(0, 0));
        RawShape(a);
        BooksRaw(cache.user, live, filler.views, Pages(r), trackers, roster, donatedHugePages, abandonedPages, filler.Used(), a);
        live := [a] + live;
        Whole({}, 0);
        ValidWhole();
        return;
      }
      donatedHugePages := donatedHugePages + 1;
      Whole(Pages(r), 1);
      ghost var excl := HugeRange(r.start, r.len - 1);
      var q, pt := AllocAndContribute(r.start + r.len - 1, PAGES - slack, false, true, excl, r.start * PAGES, Pages(r));
      ValidWhole();
      a := Alloc(r.start * PAGES, n, true, excl, pt, Piece(0, PAGES - slack));
    }

    // ----- freeing -----

    /** The tracker `pt` is out of the filler, but not out of the page map and the telemetry. */
    ghost predicate Leaving(pt: PageTracker, loose: set<int>)
      reads this, cache, cache.cache, cache.cache.links.Keys, cache.allocator, cache.allocator.free, cache.allocator.free.links.Keys
      reads filler, filler.views.Keys, filler.lists.Values, pt
    {
      cache.Valid() && filler.Valid() && Quiet() && pt !in filler.views &&
      Share(pt.Now()).0 <= donatedHugePages && Share(pt.Now()).1 <= abandonedPages && (pt.Now().flags.abandoned ==> pt.Now().flags.wasDonated) &&
      Ledger(cache.user, live, filler.views, loose, trackers - {pt.location}, Without(roster, pt), donatedHugePages - Share(pt.Now()).0,
             abandonedPages - Share(pt.Now()).1, filler.Used())
    }

    lemma LeavingWhole(pt: PageTracker, loose: set<int>)
      requires cache.Valid() && filler.Valid() && pt !in filler.views
      requires cache.unbacking == {} && filler.parked == {} && filler.fullyFreed == [] && filler.sampled == {} && filler.chosen == {}
      requires Share(pt.Now()).0 <= donatedHugePages && Share(pt.Now()).1 <= abandonedPages && (pt.Now().flags.abandoned ==> pt.Now().flags.wasDonated)
      requires Ledger(cache.user, live, filler.views, loose, trackers - {pt.location}, Without(roster, pt), donatedHugePages - Share(pt.Now()).0,
                      abandonedPages - Share(pt.Now()).1, filler.Used())
      ensures Leaving(pt, loose)
    {
    }

    lemma Departs(pt: PageTracker, v: Views, loose: set<int>)
      requires cache.Valid() && filler.Valid() && pt !in filler.views
      requires cache.unbacking == {} && filler.parked == {} && filler.fullyFreed == [] && filler.sampled == {} && filler.chosen == {}
      requires pt in v && v[pt] == pt.Now() && filler.views == v - {pt} && v[pt].allocs == {}
      requires Ledger(cache.user, live, v, loose, trackers, roster, donatedHugePages, abandonedPages, filler.Used())
      ensures Leaving(pt, loose + {pt.location})
    {
      hide *;
      BooksLeave(cache.user, live, v, loose, trackers, roster, donatedHugePages, abandonedPages, filler.Used(), pt);
      LeavingWhole(pt, loose + {pt.location});
    }

    /** Give the piece of allocation `k` back to the filler. */
    method PutInFiller(pt: PageTracker, i: nat, n: nat, success: bool, ghost k: nat) returns (emptied: bool)
      requires Valid() && k < |live| && live[k].pt == pt && live[k].piece == Piece(i, n)
      modifies this`live, filler, filler.lists.Values, pt
      ensures live == Drop(old(live), k) && pt in old(filler.views) && SameGift(old(pt.Now()), pt.Now())
      ensures cache.Valid() && filler.Valid() && cache.unbacking == {}
      ensures filler.parked == {} && filler.fullyFreed == [] && filler.sampled == {} && filler.chosen == {}
      ensures Ledger(cache.user, live, old(filler.views)[pt := pt.Now()], Pages(old(live[k]).excl), trackers, roster,
                     donatedHugePages, abandonedPages, filler.Used())
      ensures if emptied then filler.views == old(filler.views)[pt := pt.Now()] - {pt} && pt.Now().allocs == {} && pt !in filler.views
              else filler.views == old(filler.views)[pt := pt.Now()]
    {
      hide *;
      ValidParts();
      Parts({}, 0);
      PieceListed(filler, live, cache.user, trackers, roster, donatedHugePages, abandonedPages, k);
      filler.AllKnownOk();
      filler.Viewed(pt);
      ghost var v := filler.views;
      BooksFreedAll(cache.user, live, v, trackers, roster, donatedHugePages, abandonedPages, filler.Used(), pt, k);
      var r := filler.Put(pt, i, n, success);
      emptied := r != null;
      if !emptied { filler.Viewed(pt); }
      Returned(v, pt.Now(), filler.views, pt, i, n, emptied);
      live := Drop(live, k);
    }

    /** Give the piece of allocation `k` back to the filler. The allocation's own hugepages
        are loose from now on, and so is the tracker's if it is empty now. */
    method PutPiece(pt: PageTracker, i: nat, n: nat, success: bool, ghost k: nat) returns (emptied: bool)
      requires Valid() && k < |live| && live[k].pt == pt && live[k].piece == Piece(i, n)
      modifies this`live, filler, filler.lists.Values, pt
      ensures live == Drop(old(live), k) && old(filler.views.Keys) == filler.views.Keys + {pt} && pt in old(filler.views)
      ensures SameGift(old(pt.Now()), pt.Now())
      ensures if emptied then Leaving(pt, Pages(old(live[k]).excl) + {pt.location})
              else Sound(Pages(old(live[k]).excl), 0) && pt in filler.views && filler.views[pt] == pt.Now()
    {
      hide *;
      emptied := PutInFiller(pt, i, n, success, k);
      ghost var v := old(filler.views)[pt := pt.Now()];
      if emptied {
        Departs(pt, v, Pages(old(live[k]).excl));
      } else {
        Whole(Pages(old(live[k]).excl), 0);
      }
    }

    /** Take an empty tracker out of the page map and fix the telemetry. */
    method ForgetTracker(pt: PageTracker, ghost loose: set<int>)
      requires Leaving(pt, loose)
      modifies this`trackers, this`roster, this`donatedHugePages, this`abandonedPages, pt`flags
      ensures Sound(loose, 0)
    {
      hide *;
      LeavingParts(pt, loose);
      if pt.flags.wasDonated {
        donatedHugePages := donatedHugePages - 1;
        if pt.flags.abandoned {
          abandonedPages := abandonedPages - pt.flags.abandonedCount;
          pt.flags := pt.flags.(abandoned := false);
        }
      }
      trackers := trackers - {pt.location};
      roster := Without(roster, pt);
      Whole(loose, 0);
    }

    lemma LeavingParts(pt: PageTracker, loose: set<int>)
      requires Leaving(pt, loose)
      ensures cache.Valid() && filler.Valid() && pt !in filler.views
      ensures cache.unbacking == {} && filler.parked == {} && filler.fullyFreed == [] && filler.sampled == {} && filler.chosen == {}
      ensures (if pt.flags.wasDonated then 1 else 0) <= donatedHugePages && (if pt.flags.abandoned then pt.flags.abandonedCount else 0) <= abandonedPages
      ensures pt.flags.abandoned ==> pt.flags.wasDonated
      ensures Ledger(cache.user, live, filler.views, loose, trackers - {pt.location}, Without(roster, pt),
                     donatedHugePages - (if pt.flags.wasDonated then 1 else 0),
                     abandonedPages - (if pt.flags.abandoned then pt.flags.abandonedCount else 0), filler.Used())
    {
      hide HugePageFiller.Valid, HugeCache.Valid, Ledger;
    }

    /** Loose hugepages go back to the cache, or, without memory behind them, to the allocator. */
    method GiveUp(r: HugeRange, unbacked: bool, env: Env, ghost loose: set<int>)
      requires Sound(loose, 0) && r.len > 0 && Pages(r) <= loose
      modifies cache, cache.cache, cache.allocator, cache.allocator.free, cache.Mem()
      ensures Sound(loose - Pages(r), 0) && fresh(cache.Mem() - old(cache.Mem())) && cache.allocator.system == old(cache.allocator.system)
      ensures cache.usage == old(cache.usage) - r.len
    {
      hide *;
      Parts(loose, 0);
      BooksOut(cache.user, live, filler.views, loose, trackers, roster, donatedHugePages, abandonedPages, filler.Used(), Pages(r));
      if unbacked {
        cache.MemParts();
        cache.ReleaseUnbacked(r);
      } else {
        cache.Release(r, env.stale, env.min, env.unback);
      }
      Whole(loose - Pages(r), 0);
    }

    /** The hugepage of an empty tracker goes back. */
    method ReleaseHugepage(pt: PageTracker, env: Env, ghost loose: set<int>)
      requires Leaving(pt, loose) && pt.location in loose
      modifies this`trackers, this`roster, this`donatedHugePages, this`abandonedPages, pt`flags
      modifies cache, cache.cache, cache.allocator, cache.allocator.free, cache.Mem()
      ensures Sound(loose - {pt.location}, 0) && fresh(cache.Mem() - old(cache.Mem())) && cache.allocator.system == old(cache.allocator.system)
    {
      hide *;
      var r := HugeRange(pt.location, 1);
      JustOne(r);
      ghost var mem := cache.Mem();
      ForgetTracker(pt, loose);
      assert cache.Mem() == mem;
      label Before:
      GiveUp(r, pt.releasedCount > 0, env, loose);
      forall o: object? | o in cache.Mem() && o !in mem
        ensures fresh(o)
      {
        assert fresh@Before(o);
      }
    }

    /** The tail of allocation `k` stays behind on a hugepage that others use. */
    method Abandon(pt: PageTracker, ghost loose: set<int>)
      requires Sound(loose, 0) && pt in filler.views && pt.flags.wasDonated && !pt.flags.abandoned
      requires forall j :: 0 <= j < |live| && live[j].pt == pt ==> !live[j].donated
      modifies this`abandonedPages, filler`views, pt`flags
      ensures Sound(loose, 0) && filler.views.Keys == old(filler.views.Keys) && abandonedPages == old(abandonedPages + pt.flags.abandonedCount)
    {
      hide *;
      Parts(loose, 0);
      filler.Viewed(pt);
      pt.Fields();
      BooksAbandon(cache.user, live, filler.views, loose, trackers, roster, donatedHugePages, abandonedPages, filler.Used(), pt);
      abandonedPages := abandonedPages + pt.flags.abandonedCount;
      filler.SetAbandoned(pt);
      Whole(loose, 0);
    }

    /** Free an allocation that is on one hugepage with others. */
    method DeleteFromHugepage(pt: PageTracker, i: nat, n: nat, mightAbandon: bool, env: Env, ghost k: nat)
      requires Valid() && k < |live| && live[k].pt == pt && live[k].piece == Piece(i, n) && live[k].donated == mightAbandon && live[k].excl.len == 0
      modifies this`live, this`trackers, this`roster, this`donatedHugePages, this`abandonedPages, filler, filler.lists.Values, pt
      modifies cache, cache.cache, cache.allocator, cache.allocator.free, cache.Mem()
      ensures Valid() && live == Drop(old(live), k) && filler.views.Keys <= old(filler.views.Keys)
      ensures fresh(cache.Mem() - old(cache.Mem())) && cache.allocator.system == old(cache.allocator.system)
    {
      hide *;
      NoneOwned(live[k].excl, pt.location);
      DonorKnown(k);
      var emptied := PutPiece(pt, i, n, env.unbackRest, k);
      pt.Fields();
      if emptied {
        ghost var mem := cache.Mem();
        assert mem == old(cache.Mem());
        label Before:
        ReleaseHugepage(pt, env, {pt.location});
        forall o: object? | o in cache.Mem() && o !in mem
          ensures fresh(o)
        {
          assert fresh@Before(o);
        }
      } else if mightAbandon {
        Abandon(pt, {});
      }
      ValidWhole();
    }

    /** What an allocation that donated its last hugepage can tell. */
    lemma DonorKnown(k: nat)
      requires Valid() && k < |live| && live[k].pt != null
      ensures forall t :: live[k].donated && SameGift(live[k].pt.Now(), t) ==> t.flags.wasDonated && !t.flags.abandoned
      ensures live[k].donated ==> forall j :: 0 <= j < |Drop(live, k)| && Drop(live, k)[j].pt == live[k].pt ==> !Drop(live, k)[j].donated
    {
      hide HugePageFiller.Valid, HugeCache.Valid, Occupied, TrackersOk, Telemetry;
      if live[k].donated { NoOtherDonor(live, filler.views, k); }
      assert Backing(live[k], filler.views);
      filler.Viewed(live[k].pt);
    }

    /** Free the part of allocation `k` that is on its last hugepage. What is left to free
        are the `rest` hugepages from `hp` on. */
    method DeleteTail(pt: PageTracker, n: nat, hp: nat, hl: nat, env: Env, ghost k: nat) returns (rest: nat)
      requires Valid() && k < |live| && live[k].pt == pt && live[k].piece == Piece(0, n) && live[k].donated && hl > 1
      requires live[k].excl == HugeRange(hp, hl - 1) && pt.location == hp + hl - 1
      modifies this`live, this`trackers, this`roster, this`donatedHugePages, this`abandonedPages, filler, filler.lists.Values, pt
      modifies cache, cache.cache, cache.allocator, cache.allocator.free, cache.Mem()
      ensures rest > 0 && Sound(Pages(HugeRange(hp, rest)), 0) && live == Drop(old(live), k) && filler.views.Keys <= old(filler.views.Keys)
      ensures fresh(cache.Mem() - old(cache.Mem())) && cache.allocator.system == old(cache.allocator.system)
    {
      hide *;
      LastApart(hp, hl);
      DonorKnown(k);
      var emptied := PutPiece(pt, 0, n, env.unbackRest, k);
      pt.Fields();
      rest := hl - 1;
      if !emptied {
        Abandon(pt, Pages(HugeRange(hp, rest)));
        return;
      }
      assert !pt.flags.abandoned;
      ghost var mem := cache.Mem();
      assert mem == old(cache.Mem());
      if pt.releasedCount > 0 {
        label Before:
        ReleaseHugepage(pt, env, Pages(HugeRange(hp, rest)) + {pt.location});
        forall o: object? | o in cache.Mem() && o !in mem
          ensures fresh(o)
        {
          assert fresh@Before(o);
        }
      } else {
        rest := hl;
        ForgetTracker(pt, Pages(HugeRange(hp, rest)));
      }
    }

    /** Free allocation `k`, which has hugepages of its own from `hp` on. */
    method DeleteHugepages(hp: nat, n: nat, env: Env, ghost k: nat)
      requires Valid() && k < |live| && live[k].n == n && OwnPages(live[k], hp, trackers) && (live[k].pt != null ==> live[k].pt in filler.views)
      modifies this`live, this`trackers, this`roster, this`donatedHugePages, this`abandonedPages, filler, filler.lists.Values, filler.views.Keys
      modifies cache, cache.cache, cache.allocator, cache.allocator.free, cache.Mem()
      ensures Valid() && live == Drop(old(live), k) && filler.views.Keys <= old(filler.views.Keys)
      ensures fresh(cache.Mem() - old(cache.Mem())) && cache.allocator.system == old(cache.allocator.system)
    {
      hide *;
      var hl := HugeLengthFromPages(n);
      var slack := hl * PAGES - n;
      OwnParts(live[k], hp, trackers);
      ghost var mem := cache.Mem();
      if slack == 0 {
        ValidParts();
        Parts({}, 0);
        BooksPut(cache.user, live, filler.views, {}, trackers, roster, donatedHugePages, abandonedPages, filler.Used(), filler.views, k);
        live := Drop(live, k);
        Whole(Pages(HugeRange(hp, hl)), 0);
      } else {
        hl := DeleteTail(trackers[hp + hl - 1], PAGES - slack, hp, hl, env, k);
      }
      ghost var mid := cache.Mem();
      assert forall o: object? :: o in mid && o !in mem ==> fresh(o);
      label Before:
      GiveUp(HugeRange(hp, hl), false, env, Pages(HugeRange(hp, hl)));
      forall o: object? | o in cache.Mem() && o !in mem
        ensures fresh(o)
      {
        assert o !in mid ==> fresh@Before(o);
      }
      AllGone(HugeRange(hp, hl));
      ValidWhole();
    }

    /** Free allocation `k`, which is found by its first page and its length. */
    method Delete(p: nat, n: nat, donated: bool, env: Env, ghost k: nat)
      requires Valid() && k < |live| && live[k].p == p && live[k].n == n && live[k].donated == donated
      modifies this`live, this`trackers, this`roster, this`donatedHugePages, this`abandonedPages, filler, filler.lists.Values, filler.views.Keys
      modifies cache, cache.cache, cache.allocator, cache.allocator.free, cache.Mem()
      ensures Valid() && live == Drop(old(live), k) && filler.views.Keys <= old(filler.views.Keys)
      ensures fresh(cache.Mem() - old(cache.Mem())) && cache.allocator.system == old(cache.allocator.system)
    {
      var hp := p / PAGES;
      hide *;
      Found(k);
      if hp in trackers {
        DeleteFromHugepage(trackers[hp], p % PAGES, n, donated, env, k);
      } else {
        DeleteHugepages(hp, n, env, k);
      }
    }

    lemma Found(k: nat)
      requires Valid() && k < |live|
      ensures live[k].pt != null ==> live[k].pt in filler.views
      ensures var a := live[k]; var hp := a.p / PAGES;
        if hp in trackers then trackers[hp] == a.pt && a.piece == Piece(a.p % PAGES, a.n) && a.excl.len == 0 && a.pt in filler.views
        else OwnPages(a, hp, trackers)
    {
      hide HugePageFiller.Valid, HugeCache.Valid, Telemetry;
      WhereFrom(live, filler.views, cache.user, {}, trackers, k);
      assert Backing(live[k], filler.views) && Shape(live[k]);
    }

    // ----- giving memory back to the system -----

    /** Release free pages of the filler. */
    method ReleaseFromFiller(desired: nat, releasePartial: bool, partial: nat, skip: bool, reduced: nat, hitLimit: bool,
                             unback: (nat, nat, nat) -> bool, ghost success: bool) returns (total: nat)
      requires Valid() && (success ==> forall k: nat, a: nat, b: nat :: unback(k, a, b))
      modifies filler, filler.lists.Values, filler.views.Keys
      ensures Valid() && filler.views.Keys == old(filler.views.Keys)
      ensures total == old(filler.unmappingUnaccounted) + (filler.unmapped - old(filler.unmapped))
      ensures success && !(skip && !hitLimit) ==> total >= desired || filler.FreeNow() == 0
    {
      hide *;
      ValidParts();
      Parts({}, 0);
      NothingCollapses(filler);
      filler.FreeIs();
      ghost var v, used := filler.views, filler.Used();
      total := filler.ReleasePages(desired, releasePartial, partial, skip, reduced, hitLimit, unback, success);
      filler.FreePages();
      filler.FreeIs();
      BooksSubsided(cache.user, live, v, {}, trackers, roster, donatedHugePages, abandonedPages, used, filler.views, filler.mode, success);
      Whole({}, 0);
      ValidWhole();
    }

    /** Release hugepages of the cache. */
    method ReleaseFromCache(n: nat, min: nat, unback: (nat, nat) -> bool) returns (released: nat)
      requires Valid()
      modifies cache, cache.cache, cache.allocator, cache.allocator.free, cache.Mem()
      ensures Valid() && fresh(cache.Mem() - old(cache.Mem())) && cache.allocator.system == old(cache.allocator.system)
      ensures released == old(cache.size) - cache.size
      ensures (forall p: nat, k: nat :: unback(p, k)) ==> released >= n || cache.size == 0
    {
      hide *;
      ValidParts();
      Parts({}, 0);
      released := cache.ReleaseCachedPages(n, min, unback);
      LeastIs(n, old(cache.size));
      Whole({}, 0);
      ValidWhole();
    }

    /** Release at least `n` pages whatever it takes; if the system plays along and that does not
        succeed there is nothing left to release. */
    method ReleaseAtLeastNPagesBreakingHugepages(n: nat, min: nat, unback: (nat, nat) -> bool, unbackPart: (nat, nat, nat) -> bool, ghost success: bool)
      returns (released: nat)
      requires Valid() && (success ==> (forall p: nat, k: nat :: unback(p, k)) && forall k: nat, a: nat, b: nat :: unbackPart(k, a, b))
      modifies filler, filler.lists.Values, filler.views.Keys, cache, cache.cache, cache.allocator, cache.allocator.free, cache.Mem()
      ensures Valid() && fresh(cache.Mem() - old(cache.Mem())) && cache.allocator.system == old(cache.allocator.system)
      ensures filler.views.Keys == old(filler.views.Keys)
      ensures success ==> released >= n || (cache.size == 0 && filler.FreeNow() == 0)
    {
      EnoughPages(n);
      hide *;
      var fromCache := ReleaseFromCache(HugeLengthFromPages(n), min, unback);
      released := fromCache * PAGES;
      if released >= n { return; }
      assert fromCache < HugeLengthFromPages(n);
      var part := ReleaseFromFiller(n - released, false, 0, false, 0, true, unbackPart, success);
      released := released + part;
    }

    /** Release `n` pages, from the cache and, if breaking up hugepages is allowed, from the
        filler; `all` asks for everything there. */
    method ReleaseAtLeastNPages(n: nat, min: nat, unback: (nat, nat) -> bool, subrelease: bool, all: bool, releasePartial: bool, partial: nat,
                                skip: bool, reduced: nat, unbackPart: (nat, nat, nat) -> bool, ghost success: bool)
      returns (released: nat)
      requires Valid() && n <= MAX_LENGTH && (success ==> (forall p: nat, k: nat :: unback(p, k)) && forall k: nat, a: nat, b: nat :: unbackPart(k, a, b))
      modifies filler, filler.lists.Values, filler.views.Keys, cache, cache.cache, cache.allocator, cache.allocator.free, cache.Mem()
      ensures Valid() && fresh(cache.Mem() - old(cache.Mem())) && cache.allocator.system == old(cache.allocator.system)
      ensures filler.views.Keys == old(filler.views.Keys)
      ensures success && subrelease && !skip ==> released >= n || (cache.size == 0 && filler.FreeNow() == 0)
      ensures success ==> released >= n || cache.size == 0
    {
      EnoughPages(n);
      hide *;
      var fromCache := ReleaseFromCache(HugeLengthFromPages(n), min, unback);
      released := fromCache * PAGES;
      assert fromCache >= HugeLengthFromPages(n) ==> released >= n;
      if subrelease && (released < n || all) {
        var desired := if all then MAX_LENGTH else n - released;
        var part := ReleaseFromFiller(desired, releasePartial, partial, skip, reduced, false, unbackPart, success);
        released := released + part;
      }
    }
  }

  /** An allocation that starts with hugepages of its own, and the tail of which may have a tracker. */
  ghost predicate OwnPages(a: Alloc, hp: nat, trackers: map<nat, PageTracker>) {
    a.excl.start == hp && a.excl.len > 0 &&
    var hl := HugeLengthFromPages(a.n); var slack := hl * PAGES - a.n; var last := hp + hl - 1;
    if slack == 0 then a.pt == null && a.excl.len == hl
    else a.donated && a.excl.len == hl - 1 && last in trackers && trackers[last] == a.pt && a.pt.location == last && a.piece == Piece(0, PAGES - slack)
  }

  /** The system may have handed out `os` in answer to a request. */
  ghost predicate SystemGrew(system: set<int>, system': set<int>, os: HugeRange) {
    system' == system || (os.Valid() && system' == system + Pages(os))
  }

  lemma GrewBy(system: set<int>, system': set<int>, os: HugeRange)
    requires system' == system || (os.Valid() && system' == system + Pages(os))
    ensures SystemGrew(system, system', os)
  {
  }

  lemma OnePage(r: HugeRange)
    requires r.len == 1
    ensures r.start in Pages(r) && Pages(NIL) <= Pages(r) - {r.start} && Pages(r) - {r.start} - Pages(NIL) == {} && NIL.len == 0
  {
  }

  lemma GrewSelf(system: set<int>, system': set<int>, os: HugeRange)
    requires system' == system || SystemGrew(system, system', os)
    ensures SystemGrew(system, system', os)
  {
  }

  /** The hugepages just taken have no tracker. */
  lemma EndsLoose(user: set<int>, live: seq<Alloc>, views: Views, trackers: map<nat, PageTracker>, roster: seq<PageTracker>,
                  donated: int, abandoned: int, used: int, r: HugeRange)
    requires Ledger(user, live, views, Pages(r), trackers, roster, donated, abandoned, used) && r.len > 0
    ensures trackers - {r.start} == trackers && trackers - {r.start + r.len - 1} == trackers
  {
    assert r.start in Pages(r) && r.start + r.len - 1 in Pages(r);
    BooksParts(user, live, views, Pages(r), trackers, roster, donated, abandoned, used);
    hide *;
    NotTracked(user, live, views, Pages(r), trackers, r.start);
    NotTracked(user, live, views, Pages(r), trackers, r.start + r.len - 1);
  }

  lemma WholePages(n: nat, hl: nat)
    requires n > 0 && hl == HugeLengthFromPages(n)
    ensures if n <= SMALL_ALLOC_PAGES then n < PAGES && hl == 1 else n > 1
    ensures n < PAGES ==> hl * PAGES != n && hl == 1
    ensures hl > 0 && hl * PAGES >= n && (hl * PAGES == n <==> n % PAGES == 0)
    ensures hl * PAGES > n ==> 0 < n - (hl - 1) * PAGES < PAGES && PAGES - (hl * PAGES - n) == n - (hl - 1) * PAGES
  {
  }

  lemma AllButLast(r: HugeRange)
    requires r.len > 0
    ensures var excl := HugeRange(r.start, r.len - 1); var last := r.start + r.len - 1;
            last in Pages(r) && Pages(excl) <= Pages(r) - {last} && Pages(r) - {last} - Pages(excl) == {} && excl.End() == last &&
            (excl.len == 0 ==> r.start == last)
    ensures Pages(r) - Pages(r) == {} && (r.start * PAGES) % PAGES == 0
  {
  }

  lemma RawShape(a: Alloc)
    requires a.pt == null && a.excl.len > 0 && a.n == a.excl.len * PAGES && a.p == a.excl.start * PAGES && !a.donated
    ensures Shape(a)
  {
  }

  /** A hugepage with an allocation on it is on one of the filler's lists. */
  lemma PieceListed(f: HugePageFiller, live: seq<Alloc>, user: set<int>, trackers: map<nat, PageTracker>, roster: seq<PageTracker>,
               donated: int, abandoned: int, k: nat)
    requires f.Valid() && Ledger(user, live, f.views, {}, trackers, roster, donated, abandoned, f.Used()) && k < |live| && live[k].pt != null
    ensures live[k].pt in f.views && live[k].piece in f.views[live[k].pt].allocs && live[k].pt in f.order
    ensures PieceLen(live[k]) == live[k].piece.len && {} + Pages(live[k].excl) == Pages(live[k].excl)
  {
    hide HugePageFiller.Linked, HugePageFiller.Tallied, Kept, Idle, Occupied, TrackersOk, Telemetry;
    assert Backing(live[k], f.views);
    f.ValidParts();
    f.Parts();
    var pt := live[k].pt;
    WhereEmpty(f.order, f.fullyFreed, f.parked, f.views, f.board, f.mode, pt);
    KnownSane(f.order, f.fullyFreed, f.parked, f.views, f.board, f.mode, pt);
    HasAlloc(f.views[pt], live[k].piece);
  }

  /** Nothing changed about donation and abandonment. */
  ghost predicate SameGift(s: State, t: State) {
    t.flags.wasDonated == s.flags.wasDonated && t.flags.abandoned == s.flags.abandoned && t.flags.abandonedCount == s.flags.abandonedCount
  }

  lemma Returned(v: Views, s: State, v2: Views, pt: PageTracker, i: nat, n: nat, emptied: bool)
    requires pt in v && PutState(v[pt], s, n, i)
    requires if emptied then v2 == v - {pt} else pt in v2 && PutDone(v, v2, pt, n, i) && v2[pt] == s
    ensures v[pt := s].Keys == v.Keys && (forall t :: t in v && t != pt ==> v[pt := s][t] == v[t])
    ensures if emptied then v2 == v[pt := s] - {pt} && pt !in v2 else v2 == v[pt := s]
    ensures v.Keys == v2.Keys + {pt}
    ensures SameGift(v[pt], s)
  {
    SharesOf(v[pt], s, n, i);
  }

  /** Allocation `k` went, and `pt`, which it was on, is in state `s` now. */
  lemma BooksFreed(user: set<int>, live: seq<Alloc>, v: Views, trackers: map<nat, PageTracker>, roster: seq<PageTracker>,
                   donated: int, abandoned: int, used: int, pt: PageTracker, s: State, k: nat)
    requires pt in v && k < |live| && live[k].pt == pt && PutState(v[pt], s, live[k].piece.len, live[k].piece.start)
    requires Ledger(user, live, v, {}, trackers, roster, donated, abandoned, used)
    ensures Ledger(user, Drop(live, k), v[pt := s], Pages(live[k].excl), trackers, roster, donated, abandoned, used - live[k].piece.len)
  {
    assert PieceLen(live[k]) == live[k].piece.len && {} + Pages(live[k].excl) == Pages(live[k].excl);
    hide *;
    assert v[pt := s].Keys == v.Keys;
    BooksPut(user, live, v, {}, trackers, roster, donated, abandoned, used, v[pt := s], k);
  }

  lemma BooksFreedAll(user: set<int>, live: seq<Alloc>, v: Views, trackers: map<nat, PageTracker>, roster: seq<PageTracker>,
                      donated: int, abandoned: int, used: int, pt: PageTracker, k: nat)
    requires pt in v && k < |live| && live[k].pt == pt && Ok(v[pt])
    requires Ledger(user, live, v, {}, trackers, roster, donated, abandoned, used)
    ensures forall s :: PutState(v[pt], s, live[k].piece.len, live[k].piece.start) ==>
      Ledger(user, Drop(live, k), v[pt := s], Pages(live[k].excl), trackers, roster, donated, abandoned, used - live[k].piece.len)
    ensures forall s :: PutState(v[pt], s, live[k].piece.len, live[k].piece.start) && Run(live[k].piece.start, live[k].piece.len) == v[pt].free.used ==>
      s.allocs == {}
  {
    hide *;
    forall s | PutState(v[pt], s, live[k].piece.len, live[k].piece.start)
      ensures Ledger(user, Drop(live, k), v[pt := s], Pages(live[k].excl), trackers, roster, donated, abandoned, used - live[k].piece.len)
    {
      BooksFreed(user, live, v, trackers, roster, donated, abandoned, used, pt, s, k);
    }
    forall s | PutState(v[pt], s, live[k].piece.len, live[k].piece.start) && Run(live[k].piece.start, live[k].piece.len) == v[pt].free.used
      ensures s.allocs == {}
    {
      LastAlloc(v[pt], s, live[k].piece.len, live[k].piece.start);
    }
  }

  lemma JustOne(r: HugeRange)
    requires r.len == 1
    ensures Pages(r) == {r.start}
  {
  }

  lemma NoneOwned(r: HugeRange, p: int)
    requires r.len == 0
    ensures Pages(r) == {} && Pages(r) + {p} == {p} && {p} - {p} == {}
  {
  }

  lemma LastApart(hp: nat, hl: nat)
    requires hl > 0
    ensures var own := Pages(HugeRange(hp, hl - 1)); var last := hp + hl - 1;
      last in own + {last} && own + {last} - {last} == own && own + {last} == Pages(HugeRange(hp, hl))
  {
  }

  lemma AllGone(r: HugeRange)
    ensures Pages(r) - Pages(r) == {}
  {
  }

  lemma OwnParts(a: Alloc, hp: nat, trackers: map<nat, PageTracker>)
    requires OwnPages(a, hp, trackers)
    ensures var hl := HugeLengthFromPages(a.n); var slack := hl * PAGES - a.n; var last := hp + hl - 1;
      slack >= 0 && hl > 0 && {} + Pages(a.excl) == Pages(a.excl) &&
      if slack == 0 then a.pt == null && a.excl == HugeRange(hp, hl) && PieceLen(a) == 0
      else a.donated && a.excl == HugeRange(hp, hl - 1) && hl > 1 && last in trackers && trackers[last] == a.pt && a.pt.location == last &&
           slack <= PAGES && a.piece == Piece(0, PAGES - slack)
  {
  }

  /** Where the pages of an allocation are. */
  lemma PageIn(a: Alloc, q: nat)
    requires Shape(a)
    ensures a.p <= q < a.p + a.n <==>
            q / PAGES in Pages(a.excl) || (a.pt != null && q / PAGES == a.pt.location && q % PAGES in Run(a.piece.start, a.piece.len))
  {
  }

  lemma PiecesApart(s: State, a: Piece, b: Piece)
    requires Ok(s) && a in s.allocs && b in s.allocs && a != b
    ensures Run(a.start, a.len) !! Run(b.start, b.len)
  {
  }

  lemma NothingCollapses(f: HugePageFiller)
    requires f.Valid() && f.sampled == {} && f.chosen == {}
    ensures forall t :: t in f.order && t in f.views ==> !f.views[t].flags.collapsing
  {
    hide Kept, HugePageFiller.Boards, HugePageFiller.Tallied;
  }

  lemma LeastIs(n: nat, m: nat)
    ensures Least(n, m) == n || Least(n, m) == m
  {
  }

  lemma EnoughPages(n: nat)
    ensures forall k: nat :: k >= HugeLengthFromPages(n) ==> k * PAGES >= n
  {
  }
}

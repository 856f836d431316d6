/** The filler: small allocations packed into hugepages (class HugePageFiller,
    tcmalloc/huge_page_filler.h). */
module Filler {
  import opened Lists
  import opened RangeTrackers
  import opened PageTrackers
  import opened FillerLists
  import opened FillerBooks
  import opened FillerKeep
  import opened FillerPick
  import opened FillerPut
  import opened FillerRelease
  import opened FillerTreat
  import opened HintedLists

  /** Empty lists for every family. */
  method MakeLists() returns (m: map<Family, HintedTrackerLists<PageTracker>>, ghost b: Board)
    ensures forall f: Family :: f in m && fresh(m[f]) && m[f].Valid() && m[f].n == NumLists(f)
    ensures forall f: Family, g: Family :: f != g ==> m[f] != m[g]
    ensures Shaped(b) && (forall f: Family :: m[f].lists == b[f]) && forall f: Family, i: nat :: i < |b[f]| ==> b[f][i] == []
  {
    m, b := map[], map[];
    var todo := [Donated, Regular(false), Regular(true), Partial(false), Partial(true), AllReleased(false), AllReleased(true)];
    for k := 0 to |todo|
      invariant b.Keys == m.Keys && forall j :: 0 <= j < k ==> todo[j] in m
      invariant forall f: Family :: f in m ==> fresh(m[f]) && m[f].Valid() && m[f].n == NumLists(f) && m[f].lists == b[f]
      invariant forall f: Family, i: nat :: f in b && i < |b[f]| ==> b[f][i] == []
      invariant forall f: Family, g: Family :: f in m && g in m && f != g ==> m[f] != m[g]
    {
      var h := new HintedTrackerLists<PageTracker>(NumLists(todo[k]));
      m := m[todo[k] := h];
      b := b[todo[k] := h.lists];
    }
    forall f: Family ensures f in m {
      FamilyCases(f);
      assert todo[0] in m && todo[1] in m && todo[2] in m && todo[3] in m && todo[4] in m && todo[5] in m && todo[6] in m;
    }
  }

  class HugePageFiller {
    const mode: bool
    /** The arrays of lists, one for each family. */
    const lists: map<Family, HintedTrackerLists<PageTracker>>
    var fullyFreed: seq<PageTracker>
    var size: nat
    var pagesAllocated: PerType
    var unmapped: nat
    var unmappingUnaccounted: nat
    var nUsedReleased: PerType
    var nUsedPartial: PerType

    /** The trackers on lists and in the hands of an operation, what each tracker and each
        list looks like, and the trackers picked by the treatment under way. */
    ghost var order: seq<PageTracker>
    ghost var parked: set<PageTracker>
    ghost var views: Views
    ghost var board: Board
    ghost var sampled: set<PageTracker>
    ghost var chosen: set<PageTracker>

    ghost predicate Agree()
      reads this`views, views.Keys
    {
      forall t :: t in views ==> t.Now() == views[t]
    }

    /** The lists are distinct objects and `board` is what they hold. */
    ghost predicate Boards()
      reads this`board, lists.Values
    {
      (forall f: Family :: f in lists) && (forall f: Family, g: Family :: f != g ==> lists[f] != lists[g]) &&
      (forall f: Family :: f in board && lists[f].Valid() && lists[f].n == NumLists(f) && lists[f].lists == board[f])
    }

    /** Pages in use, of either density. */
    ghost function Used(): nat
      reads this`pagesAllocated
    {
      pagesAllocated.sparse + pagesAllocated.dense
    }

    ghost function Counters(): Counts
      reads this`size, this`pagesAllocated, this`unmapped, this`nUsedReleased, this`nUsedPartial
    {
      Counts(size, pagesAllocated, unmapped, nUsedReleased, nUsedPartial)
    }

    /** Every tracker is where it should be. */
    ghost predicate Linked()
      reads this`order, this`fullyFreed, this`parked, this`views, this`board, views.Keys, lists.Values
    {
      Agree() && Boards() && Kept(order, fullyFreed, parked, views, board, mode)
    }

    ghost predicate Tallied()
      reads this`order, this`views, this`size, this`pagesAllocated, this`unmapped, this`nUsedReleased, this`nUsedPartial
    {
      (forall t :: t in order ==> t in views) && Counters() == Tally(order, views, mode)
    }

    ghost predicate Valid()
      reads this`order, this`fullyFreed, this`parked, this`views, this`board, this`sampled, this`chosen
      reads this`size, this`pagesAllocated, this`unmapped, this`nUsedReleased, this`nUsedPartial, views.Keys, lists.Values
    {
      Linked() && Tallied() && Holds(views, sampled, chosen) && AllIdle(parked, views)
    }

    lemma ValidParts()
      requires Valid()
      ensures Linked() && Tallied() && Holds(views, sampled, chosen) && AllIdle(parked, views)
    {
    }

    lemma ValidWhole()
      requires Linked() && Tallied() && Holds(views, sampled, chosen) && AllIdle(parked, views)
      ensures Valid()
    {
    }

    constructor (mode: bool)
      ensures Valid() && views == map[] && sampled == {} && chosen == {} && fullyFreed == [] && parked == {}
      ensures this.mode == mode && fresh(lists.Values) && Used() == 0
    {
      this.mode := mode;
      var m, b := MakeLists();
      lists, board := m, b;
      fullyFreed, size, unmapped, unmappingUnaccounted := [], 0, 0, 0;
      pagesAllocated, nUsedReleased, nUsedPartial := PerType(0, 0), PerType(0, 0), PerType(0, 0);
      order, parked, views, sampled, chosen := [], {}, map[], {}, {};
      new;
      KeptEmpty(board, mode);
    }

    // ----- the lists -----

    method BoardRemove(pt: PageTracker, f: Family, i: nat)
      requires Boards() && f in board && On(board, pt, f, i) && NoDup(board[f][i])
      modifies lists.Values, this`board
      ensures Boards() && f in old(board) && i < |old(board)[f]| && board == Unlisted(old(board), f, i, pt)
    {
      lists[f].Remove(pt, i);
      board := Unlisted(board, f, i, pt);
    }

    method BoardAdd(pt: PageTracker, f: Family, i: nat)
      requires Boards() && f in board && i < |board[f]|
      modifies lists.Values, this`board
      ensures Boards() && f in old(board) && i < |old(board)[f]| && board == Prepended(old(board), f, i, pt)
    {
      lists[f].Add(pt, i);
      board := Prepended(board, f, i, pt);
    }

    /** Take `pt` off list `i` of family `f`. */
    method Unlist(pt: PageTracker, f: Family, i: nat)
      requires Linked() && pt in order && pt in views && Home(views[pt], mode, f, i)
      modifies lists.Values, this`order, this`parked, this`board
      ensures Linked() && order == Without(old(order), pt) && parked == old(parked) + {pt}
    {
      hide Kept, Home, Agree, Boards, Unlisted, Without, NoDup;
      KeptTake(order, fullyFreed, parked, views, board, mode, pt, f, i);
      BoardRemove(pt, f, i);
      order, parked := Without(order, pt), parked + {pt};
    }

    /** Put `pt` on list `i` of family `f`. */
    method Enlist(pt: PageTracker, f: Family, i: nat)
      requires Linked() && pt in parked && pt in views && Home(views[pt], mode, f, i)
      modifies lists.Values, this`order, this`parked, this`board
      ensures Linked() && order == [pt] + old(order) && parked == old(parked) - {pt}
    {
      hide Kept, Home, Agree, Boards, Prepended;
      KeptPut(order, fullyFreed, parked, views, board, mode, pt, f, i);
      BoardAdd(pt, f, i);
      order, parked := [pt] + order, parked - {pt};
    }

    /** A tracker with `used` pages leaves a list of family `f`. */
    method Uncharge(f: Family, used: nat, ghost s: State, ghost rest: Counts)
      requires f == FamilyOf(s, mode) && used == s.free.nused && Counters() == Add(Add(Loose(s), OnList(s, mode)), rest)
      modifies this`nUsedReleased, this`nUsedPartial
      ensures Counters() == Add(Loose(s), rest)
    {
      hide FamilyOf;
      if f.AllReleased? {
        nUsedReleased := nUsedReleased.With(f.dense, nUsedReleased.At(f.dense) - used);
      } else if f.Partial? {
        nUsedPartial := nUsedPartial.With(f.dense, nUsedPartial.At(f.dense) - used);
      }
    }

    /** A tracker with `used` pages joins a list of family `f`. */
    method Charge(f: Family, used: nat, ghost s: State)
      requires f == FamilyOf(s, mode) && used == s.free.nused
      modifies this`nUsedReleased, this`nUsedPartial
      ensures Counters() == Add(old(Counters()), OnList(s, mode))
    {
      hide FamilyOf;
      if f.AllReleased? {
        nUsedReleased := nUsedReleased.With(f.dense, nUsedReleased.At(f.dense) + used);
      } else if f.Partial? {
        nUsedPartial := nUsedPartial.With(f.dense, nUsedPartial.At(f.dense) + used);
      }
    }

    lemma ViewOf(t: PageTracker)
      requires Agree() && t in views
      ensures t.Now() == views[t] && views[t] == State(t.free, t.allocs, t.released, t.releasedCount, t.unbroken, t.flags)
    {
    }

    /** Take `pt` off its list. */
    method RemoveFromFillerList(pt: PageTracker)
      requires Linked() && Tallied() && pt in order
      modifies lists.Values, this`order, this`parked, this`board, this`nUsedReleased, this`nUsedPartial
      ensures Linked() && order == Without(old(order), pt) && parked == old(parked) + {pt} && pt in views && InUse(views[pt])
      ensures (forall t :: t in order ==> t in views) && Counters() == Add(Loose(views[pt]), Tally(order, views, mode))
    {
      hide *;
      Parts();
      TallyParts();
      OrderKnown(order, fullyFreed, parked, views, board, mode, pt);
      ViewOf(pt);
      var f, i := FamilyNow(pt, mode), IndexNow(pt);
      TallyTake(order, views, mode, pt);
      Unlist(pt, f, i);
      Uncharge(f, pt.free.nused, views[pt], Tally(order, views, mode));
    }

    lemma Parts()
      requires Linked()
      ensures Agree() && Boards() && Kept(order, fullyFreed, parked, views, board, mode)
      ensures NoDup(order) && forall t :: t in order ==> t in views
    {
      OrderInViews(order, fullyFreed, parked, views, board, mode);
    }

    lemma TallyParts()
      requires Tallied()
      ensures (forall t :: t in order ==> t in views) && Counters() == Tally(order, views, mode)
    {
    }

    /** Put `pt`, which is in use, on the list for its state; it no longer counts as donated. */
    method Relist(pt: PageTracker)
      requires Linked() && pt in parked && pt in views && InUse(Undonated(views[pt]))
      modifies lists.Values, pt`flags, this`order, this`parked, this`board, this`views, this`nUsedReleased, this`nUsedPartial
      ensures Linked() && order == [pt] + old(order) && parked == old(parked) - {pt}
      ensures views == old(views)[pt := Undonated(old(views)[pt])]
      ensures Counters() == Add(old(Counters()), OnList(views[pt], mode))
      ensures (forall x :: x in old(order) ==> x in old(views) && x in views) && Tally(old(order), views, mode) == Tally(old(order), old(views), mode)
    {
      hide *;
      HomeOf(Undonated(views[pt]), mode);
      ClearDonated(pt);
      Parts();
      ViewOf(pt);
      var f, i := FamilyNow(pt, mode), IndexNow(pt);
      Enlist(pt, f, i);
      Charge(f, pt.free.nused, views[pt]);
    }

    method ClearDonated(pt: PageTracker)
      requires Linked() && pt in parked && pt in views && Sane(Undonated(views[pt]))
      modifies pt`flags, this`views
      ensures Linked() && views == old(views)[pt := Undonated(old(views)[pt])]
      ensures (forall x :: x in old(order) ==> x in old(views) && x in views) && Tally(old(order), views, mode) == Tally(old(order), old(views), mode)
    {
      hide Kept, Boards;
      ViewOf(pt);
      KeptSet(order, fullyFreed, parked, views, board, mode, pt, Undonated(views[pt]));
      pt.flags := pt.flags.(donated := false);
      views := views[pt := Undonated(views[pt])];
    }

    /** Put `pt` where it belongs: aside if it is empty, else on the list for its state. */
    method AddToFillerList(pt: PageTracker)
      requires Linked() && pt in parked && pt in views
      requires if views[pt].free.longest == PAGES then Idle(views[pt]) else InUse(Undonated(views[pt]))
      modifies lists.Values, pt`flags, this`order, this`parked, this`board, this`views, this`nUsedReleased, this`nUsedPartial, this`fullyFreed
      ensures Linked() && parked == old(parked) - {pt}
      ensures old(views)[pt].free.longest == PAGES ==>
                order == old(order) && fullyFreed == [pt] + old(fullyFreed) && views == old(views) && Counters() == old(Counters())
      ensures old(views)[pt].free.longest < PAGES ==>
                order == [pt] + old(order) && fullyFreed == old(fullyFreed) && views == old(views)[pt := Undonated(old(views)[pt])] &&
                Counters() == Add(old(Counters()), OnList(views[pt], mode))
      ensures (forall x :: x in old(order) ==> x in old(views) && x in views) && Tally(old(order), views, mode) == Tally(old(order), old(views), mode)
    {
      hide *;
      Parts();
      ViewOf(pt);
      if pt.free.longest == PAGES {
        KeptFree(order, fullyFreed, parked, views, board, mode, pt);
        OrderInViews(order, fullyFreed, parked, views, board, mode);
        fullyFreed := [pt] + fullyFreed;
        parked := parked - {pt};
        Whole();
      } else {
        Relist(pt);
      }
    }

    lemma Whole()
      requires Agree() && Boards() && Kept(order, fullyFreed, parked, views, board, mode)
      ensures Linked()
    {
    }

    /** Put `pt`, the tail of a large allocation, on the donated lists. */
    method DonateToFillerList(pt: PageTracker)
      requires Linked() && pt in parked && pt in views && InUse(Redonated(views[pt]))
      modifies lists.Values, pt`flags, this`order, this`parked, this`board, this`views
      ensures Linked() && order == [pt] + old(order) && parked == old(parked) - {pt}
      ensures views == old(views)[pt := Redonated(old(views)[pt])]
      ensures (forall x :: x in old(order) ==> x in old(views) && x in views) && Tally(old(order), views, mode) == Tally(old(order), old(views), mode)
    {
      hide *;
      RedonatedHome(views[pt], mode);
      SetDonated(pt);
      Parts();
      ViewOf(pt);
      Enlist(pt, Donated, pt.free.longest);
    }

    method SetDonated(pt: PageTracker)
      requires Linked() && pt in parked && pt in views && Sane(Redonated(views[pt]))
      modifies pt`flags, this`views
      ensures Linked() && views == old(views)[pt := Redonated(old(views)[pt])]
      ensures (forall x :: x in old(order) ==> x in old(views) && x in views) && Tally(old(order), views, mode) == Tally(old(order), old(views), mode)
    {
      hide Kept, Boards;
      ViewOf(pt);
      KeptSet(order, fullyFreed, parked, views, board, mode, pt, Redonated(views[pt]));
      pt.flags := pt.flags.(donated := true);
      views := views[pt := Redonated(views[pt])];
    }

    // ----- allocating -----

    method BoardLeast(f: Family, from: nat) returns (pt: PageTracker?, ghost i: nat)
      requires Boards() && f in board && from <= NumLists(f)
      modifies lists.Values, this`board
      ensures Boards() && f in old(board) && |old(board)[f]| == NumLists(f) && from <= i <= NumLists(f)
      ensures forall j :: from <= j < i ==> old(board)[f][j] == []
      ensures if i == NumLists(f) then pt == null && board == old(board)
              else old(board)[f][i] != [] && pt == old(board)[f][i][0] &&
                   board == old(board)[f := old(board)[f][i := old(board)[f][i][1..]]]
    {
      var first;
      first, i := lists[f].GetLeast(from);
      pt := null;
      if first.Some? {
        pt := first.value;
        board := board[f := board[f][i := board[f][i][1..]]];
      }
    }

    method Grab(f: Family, from: nat) returns (pt: PageTracker?)
      requires Linked() && from <= NumLists(f)
      modifies lists.Values, this`order, this`parked, this`board
      ensures Linked()
      ensures pt == null ==> Nothing(order, views, mode, f, from, NumLists(f)) && order == old(order) && parked == old(parked)
      ensures pt != null ==> LeastOf(old(order), views, mode, f, from, pt) && pt in old(order) && pt in views && Sane(views[pt])
      ensures pt != null ==> FamilyOf(views[pt], mode) == f && order == Without<PageTracker>(old(order), pt) && parked == old(parked) + {pt}
    {
      hide *;
      Parts();
      KeptShaped(order, fullyFreed, parked, views, board, mode, f);
      ghost var i;
      pt, i := BoardLeast(f, from);
      EmptyLists(order, fullyFreed, parked, views, old(board), mode, f, from, i);
      if pt != null {
        TakenLeast(order, fullyFreed, parked, views, old(board), mode, f, from, i);
        order, parked := Without<PageTracker>(order, pt), parked + {pt};
      }
      Whole();
    }

    /** Take the first tracker off the first non-empty list of family `f` from `from` on. */
    method TakeLeast(f: Family, from: nat) returns (pt: PageTracker?)
      requires Linked() && Tallied() && from <= NumLists(f)
      modifies lists.Values, this`order, this`parked, this`board, this`nUsedReleased, this`nUsedPartial
      ensures Linked()
      ensures pt == null ==> Nothing(order, views, mode, f, from, NumLists(f)) && order == old(order) && parked == old(parked) && Tallied()
      ensures pt != null ==> LeastOf(old(order), views, mode, f, from, pt) && pt in views && Sane(views[pt])
      ensures pt != null ==> order == Without<PageTracker>(old(order), pt) && parked == old(parked) + {pt}
      ensures pt != null ==> (forall t :: t in order ==> t in views) && Counters() == Add(Loose(views[pt]), Tally(order, views, mode))
    {
      hide *;
      Parts();
      TallyParts();
      pt := Grab(f, from);
      if pt != null {
        Parts();
        ViewOf(pt);
        TallyTake(old(order), views, mode, pt);
        Uncharge(f, pt.free.nused, views[pt], Tally(order, views, mode));
      }
    }

    /** Find the tracker to serve `n` pages from, and take it off its list. */
    method Pick(n: nat, dense: bool) returns (pt: PageTracker?, wasReleased: bool)
      requires Linked() && Tallied() && 0 < n < PAGES && (dense ==> n == 1)
      modifies lists.Values, this`order, this`parked, this`board, this`nUsedReleased, this`nUsedPartial
      ensures Linked()
      ensures pt == null ==> NoRoom(order, views, n, dense) && order == old(order) && parked == old(parked) && Tallied()
      ensures pt != null ==> Best(old(order), views, mode, n, dense, pt) && pt in views && Sane(views[pt])
      ensures pt != null ==> wasReleased == (FamilyOf(views[pt], mode) in {Partial(dense), AllReleased(dense)})
      ensures pt != null ==> order == Without<PageTracker>(old(order), pt) && parked == old(parked) + {pt}
      ensures pt != null ==> (forall t :: t in order ==> t in views) && Counters() == Add(Loose(views[pt]), Tally(order, views, mode))
    {
      hide *;
      Parts();
      ListedInUse(order, fullyFreed, parked, views, board, mode);
      FirstLists(order, views, mode, n, dense);
      wasReleased := false;
      var from := ListFor(n, 0, dense, PAGES - 1);
      pt := TakeLeast(Regular(dense), from);
      if pt != null {
        PickedBest(old(order), views, mode, n, dense, Regular(dense), pt);
        return;
      }
      PassOn(order, views, mode, n, dense, Regular(dense), Donated);
      if !dense {
        pt := TakeLeast(Donated, n);
        if pt != null {
          PickedBest(old(order), views, mode, n, dense, Donated, pt);
          return;
        }
      }
      PassOn(order, views, mode, n, dense, Donated, Partial(dense));
      pt := TakeLeast(Partial(dense), from);
      if pt != null {
        PickedBest(old(order), views, mode, n, dense, Partial(dense), pt);
        wasReleased := true;
        return;
      }
      PassOn(order, views, mode, n, dense, Partial(dense), AllReleased(dense));
      pt := TakeLeast(AllReleased(dense), from);
      if pt != null {
        PickedBest(old(order), views, mode, n, dense, AllReleased(dense), pt);
        wasReleased := true;
        return;
      }
      NothingLeft(order, views, mode, n, dense);
    }

    /** Allocate `n` pages on a parked tracker. */
    method GetPages(pt: PageTracker, n: nat) returns (i: nat, unbacked: nat, ghost t: State)
      requires Linked() && pt in parked && pt in views && 0 < n <= views[pt].free.longest && (views[pt].flags.dense ==> n == 1)
      requires forall x :: x in order ==> x in views
      modifies pt, this`views
      ensures Linked() && views == old(views)[pt := t] && Got(old(views)[pt], t, n, i, unbacked)
      ensures InUse(Undonated(t)) && Sane(t) && t.free.longest < PAGES && Undonated(t).flags == Undonated(old(views)[pt]).flags
      ensures (forall x :: x in order ==> x in views) && Tally(order, views, mode) == old(Tally(order, views, mode))
    {
      hide Kept, Boards, Got, Ok, Sane, InUse, Tally, Undonated, PageTracker.Now;
      ParkedSane(order, fullyFreed, parked, views, board, mode, pt);
      ViewOf(pt);
      i, unbacked := pt.Get(n);
      t := pt.Now();
      GotInUse(views[pt], t, n, i, unbacked);
      GotFlags(views[pt], t, n, i, unbacked);
      KeptSet(order, fullyFreed, parked, views, board, mode, pt, t);
      views := views[pt := t];
    }

    /** Charge the counters with an allocation. */
    method Settle(dense: bool, n: nat, ghost i: nat, unbacked: nat, ghost s: State, ghost t: State, ghost rest: Counts)
      requires Got(s, t, n, i, unbacked) && s.flags.dense == dense
      requires Counters() == Add(Add(Loose(s), rest), OnList(Undonated(t), mode))
      modifies this`pagesAllocated, this`unmapped
      ensures Counters() == Add(Add(Loose(Undonated(t)), OnList(Undonated(t), mode)), rest)
      ensures pagesAllocated.At(dense) == old(pagesAllocated).At(dense) + n
      ensures Used() == old(Used()) + n
    {
      hide Got, Loose, OnList, Add;
      GotBooks(s, t, n, i, unbacked, mode, rest, Counters());
      pagesAllocated := pagesAllocated.With(dense, pagesAllocated.At(dense) + n);
      unmapped := unmapped - unbacked;
    }

    /** Allocate `n` pages on the parked tracker `pt` and put it back on a list. */
    method Serve(pt: PageTracker, n: nat, dense: bool) returns (i: nat, ghost unbacked: nat, ghost t: State)
      requires Linked() && pt in parked && pt in views && 0 < n <= views[pt].free.longest
      requires views[pt].flags.dense == dense && (dense ==> n == 1)
      requires (forall x :: x in order ==> x in views) && Counters() == Add(Loose(views[pt]), Tally(order, views, mode))
      modifies pt, lists.Values, this`order, this`parked, this`board, this`views, this`nUsedReleased, this`nUsedPartial
      modifies this`fullyFreed, this`pagesAllocated, this`unmapped
      ensures Linked() && Tallied() && order == [pt] + old(order) && parked == old(parked) - {pt} && fullyFreed == old(fullyFreed)
      ensures Got(old(views)[pt], t, n, i, unbacked) && views == old(views)[pt := Undonated(t)]
      ensures Undonated(t).flags == Undonated(old(views)[pt]).flags && pagesAllocated.At(dense) == old(pagesAllocated).At(dense) + n
      ensures Used() == old(Used()) + n
    {
      hide *;
      ghost var rest := Tally(order, views, mode);
      var k;
      i, k, t := GetPages(pt, n);
      unbacked := k;
      AddToFillerList(pt);
      Settle(dense, n, i, k, old(views)[pt], t, rest);
      TallyPut(old(order), views, mode, pt);
      Parts();
      TallyWhole();
    }

    lemma TallyWhole()
      requires (forall t :: t in order ==> t in views) && Counters() == Tally(order, views, mode)
      ensures Tallied()
    {
    }

    /** Serve `n` pages for spans of the given density, if some tracker has room. */
    method TryGet(n: nat, dense: bool) returns (pt: PageTracker?, i: nat, wasReleased: bool)
      requires Valid() && 0 < n < PAGES && (dense ==> n == 1)
      modifies this, lists.Values, views.Keys
      ensures Valid() && fullyFreed == old(fullyFreed) && parked == old(parked) && sampled == old(sampled) && chosen == old(chosen)
      ensures unmappingUnaccounted == old(unmappingUnaccounted)
      ensures pt == null <==> NoRoom(old(order), old(views), n, dense)
      ensures pt == null ==> views == old(views) && order == old(order)
      ensures pt != null ==> Best(old(order), old(views), mode, n, dense, pt) && SetOf(order) == SetOf(old(order))
      ensures pt != null ==> Served(old(views), views, pt, n, i) && pagesAllocated.At(dense) == old(pagesAllocated).At(dense) + n
      ensures pt != null ==> wasReleased == (FamilyOf(old(views)[pt], mode) in {Partial(dense), AllReleased(dense)})
      ensures Used() == old(Used()) + if pt == null then 0 else n
    {
      hide *;
      ValidParts();
      Parts();
      pt, wasReleased := Pick(n, dense);
      if pt == null {
        i := 0;
        ValidWhole();
        return;
      }
      BestFits(old(order), views, mode, n, dense, pt);
      OrderKnown(old(order), old(fullyFreed), old(parked), old(views), old(board), mode, pt);
      ghost var unbacked, t;
      i, unbacked, t := Serve(pt, n, dense);
      ServedBy(old(order), old(views), views, old(parked), sampled, chosen, pt, n, i, unbacked, t);
      assert parked == old(parked);
      ValidWhole();
    }

    /** Put the parked tracker `pt`, which is in use, on a list, with the counters right but
        for the lists. */
    method Return(pt: PageTracker)
      requires Linked() && pt in parked && pt in views && InUse(Undonated(views[pt])) && views[pt].free.longest < PAGES
      requires (forall x :: x in order ==> x in views) && Counters() == Add(Loose(views[pt]), Tally(order, views, mode))
      modifies lists.Values, pt`flags, this`order, this`parked, this`board, this`views, this`nUsedReleased, this`nUsedPartial, this`fullyFreed
      ensures Linked() && Tallied() && order == [pt] + old(order) && parked == old(parked) - {pt} && fullyFreed == old(fullyFreed)
      ensures views == old(views)[pt := Undonated(old(views)[pt])]
    {
      hide *;
      AddToFillerList(pt);
      TallyPut(old(order), views, mode, pt);
      Recount(old(views)[pt], mode, Tally(old(order), views, mode));
      Parts();
      TallyWhole();
    }

    // ----- freeing -----

    /** Free an allocation on the parked tracker `pt`. */
    method PutOff(pt: PageTracker, i: nat, n: nat)
      requires Linked() && pt in parked && pt in views && Sane(views[pt]) && Piece(i, n) in views[pt].allocs
      requires (forall x :: x in order ==> x in views) && Counters() == Add(Loose(views[pt]), Tally(order, views, mode))
      modifies pt, this`views, this`pagesAllocated
      ensures Linked() && pt in views && views == old(views)[pt := views[pt]] && PutBack(old(views)[pt], views[pt], n, i) && Sane(views[pt])
      ensures (forall x :: x in order ==> x in views) && Counters() == Add(Loose(views[pt]), Tally(order, views, mode))
      ensures Used() == old(Used()) - n
    {
      hide Kept, Boards, PutBack, Ok, Sane, Tally, Loose, Add, PageTracker.Now;
      SaneOk(views[pt]);
      ViewOf(pt);
      pt.Put(i, n);
      PutSane(views[pt], pt.Now(), n, i);
      PutBooks(views[pt], pt.Now(), n, i, Tally(order, views, mode), Counters());
      KeptSet(order, fullyFreed, parked, views, board, mode, pt, pt.Now());
      views := views[pt := pt.Now()];
      var dense := pt.flags.dense;
      pagesAllocated := pagesAllocated.With(dense, pagesAllocated.At(dense) - n);
    }

    /** The empty tracker `pt` leaves the books. `partial` says that some of its pages, but
        not all, have been released. */
    method Discount(pt: PageTracker) returns (partial: bool)
      requires Linked() && pt in parked && pt in views && Idle(views[pt])
      requires (forall x :: x in order ==> x in views) && Counters() == Add(Loose(views[pt]), Tally(order, views, mode))
      modifies this`size, this`unmapped
      ensures Counters() == Tally(order, views, mode)
      ensures partial == (0 < views[pt].releasedCount < PAGES)
    {
      hide Kept, Boards, Tally, Loose, Add, Ok;
      ViewOf(pt);
      EmptyBooks(views[pt], Tally(order, views, mode), Counters());
      size := size - 1;
      partial := false;
      if pt.releasedCount > 0 {
        var freePages := PAGES - pt.free.nused;
        unmapped := unmapped - pt.releasedCount;
        partial := freePages > pt.releasedCount;
      }
    }

    /** Take `pt` off its list and free an allocation on it. */
    method TakeBack(pt: PageTracker, i: nat, n: nat)
      requires Linked() && Tallied() && pt in order && pt in views && Piece(i, n) in views[pt].allocs
      modifies lists.Values, pt, this`order, this`parked, this`board, this`views, this`nUsedReleased, this`nUsedPartial, this`pagesAllocated
      ensures Linked() && order == Without(old(order), pt) && parked == old(parked) + {pt} && pt !in old(parked)
      ensures pt in views && views == old(views)[pt := views[pt]] && InUse(old(views)[pt])
      ensures PutBack(old(views)[pt], views[pt], n, i) && Sane(views[pt])
      ensures (forall x :: x in order ==> x in views) && Counters() == Add(Loose(views[pt]), Tally(order, views, mode))
      ensures Used() == old(Used()) - n
    {
      hide *;
      Parts();
      OrderKnown(order, fullyFreed, parked, views, board, mode, pt);
      RemoveFromFillerList(pt);
      HomeOf(views[pt], mode);
      PutOff(pt, i, n);
    }

    /** Free an allocation, up to the point where the rest of an emptied hugepage is
        released without the lock. */
    method PutPages(pt: PageTracker, i: nat, n: nat) returns (emptied: bool, partial: bool)
      requires Valid() && pt in order && pt in views && Piece(i, n) in views[pt].allocs
      modifies this, lists.Values, pt
      ensures Valid() && fullyFreed == old(fullyFreed) && sampled == old(sampled) && chosen == old(chosen)
      ensures unmappingUnaccounted == old(unmappingUnaccounted)
      ensures pt in views && PutDone(old(views), views, pt, n, i)
      ensures emptied == (views[pt].free.nused == 0) == (Run(i, n) == old(views)[pt].free.used) && partial == (emptied && 0 < views[pt].releasedCount < PAGES)
      ensures if emptied then order == Without(old(order), pt) && parked == old(parked) + {pt} && pt !in old(parked)
              else order == [pt] + Without(old(order), pt) && parked == old(parked)
      ensures Used() == old(Used()) - n
    {
      hide *;
      ValidParts();
      TakeBack(pt, i, n);
      ghost var t := views[pt];
      PutKind(old(views)[pt], t, n, i);
      PutDoneAt(old(views), old(views)[pt := t], old(views)[pt := Undonated(t)], old(parked), sampled, chosen, pt, n, i);
      Parts();
      ViewOf(pt);
      emptied, partial := pt.free.longest == PAGES, false;
      if emptied {
        partial := Discount(pt);
        TallyWhole();
      } else {
        Return(pt);
        assert parked == old(parked);
      }
      ValidWhole();
    }

    /** The parked tracker `pt` is handed out for deletion. */
    method Leave(pt: PageTracker)
      requires Linked() && Tallied() && pt in parked && pt in views && Holds(views, sampled, chosen) && !views[pt].flags.Held()
      requires AllIdle(parked, views)
      modifies this`views, this`parked
      ensures Valid() && views == old(views) - {pt} && parked == old(parked) - {pt}
    {
      hide Kept, Boards, Tally, Idle;
      KeptLeave(order, fullyFreed, parked, views, board, mode, pt);
      views := views - {pt};
      parked := parked - {pt};
    }

    /** The rest of `Put` for an emptied tracker, with the lock held again: hand it out,
        or put it aside while a treatment holds on to it. */
    method PutFinish(pt: PageTracker, partial: bool, success: bool) returns (r: PageTracker?)
      requires Valid() && pt in parked
      modifies this, lists.Values, pt`flags
      ensures Valid() && parked == old(parked) - {pt} && order == old(order) && sampled == old(sampled) && chosen == old(chosen)
      ensures pt in old(views) && r == if pt in sampled + chosen then null else pt
      ensures if r == null then fullyFreed == [pt] + old(fullyFreed) && views == old(views)
              else fullyFreed == old(fullyFreed) && views == old(views) - {pt}
      ensures Counters() == old(Counters())
      ensures Used() == old(Used())
      ensures r != null ==> pt.Now() == old(views)[pt]
    {
      hide *;
      ValidParts();
      Parts();
      ParkedSane(order, fullyFreed, parked, views, board, mode, pt);
      ParkedIdle(parked, views, pt);
      HeldBy(views, sampled, chosen, pt);
      ViewOf(pt);
      if partial && success {
        unmappingUnaccounted := unmappingUnaccounted + (PAGES - pt.releasedCount);
      }
      if !pt.flags.Held() {
        Leave(pt);
        r := pt;
      } else {
        AddToFillerList(pt);
        FewerIdle(old(parked), parked, views);
        TallyWhole();
        ValidWhole();
        r := null;
      }
    }

    /** Free an allocation, with nobody interfering; `success` says how a release of the
        rest of the hugepage would go. Returns `pt` if it is now empty and to be deleted. */
    method Put(pt: PageTracker, i: nat, n: nat, success: bool) returns (r: PageTracker?)
      requires Valid() && pt in order && pt in views && Piece(i, n) in views[pt].allocs
      modifies this, lists.Values, pt
      ensures Valid() && parked == old(parked) && sampled == old(sampled) && chosen == old(chosen)
      ensures r == null || r == pt
      ensures r == pt <==> Run(i, n) == old(views)[pt].free.used && pt !in sampled + chosen
      ensures if r == pt then views == old(views) - {pt} && fullyFreed == old(fullyFreed) && order == Without(old(order), pt)
              else pt in views && PutDone(old(views), views, pt, n, i)
      ensures r == null ==> fullyFreed == (if Run(i, n) == old(views)[pt].free.used then [pt] else []) + old(fullyFreed)
      ensures Used() == old(Used()) - n
      ensures PutState(old(views)[pt], pt.Now(), n, i)
    {
      hide *;
      r := null;
      var emptied, partial := PutPages(pt, i, n);
      PutDoneState(old(views), views, pt, n, i);
      if emptied {
        assert parked - {pt} == old(parked);
        PutDoneElse(old(views), views, pt, n, i);
        r := PutFinish(pt, partial, success);
      }
      if r == null {
        ValidParts();
        Parts();
        ViewOf(pt);
      }
    }

    /** Pick up an empty tracker that was put aside. */
    method FetchFullyFreedTracker() returns (r: PageTracker?)
      requires Valid() && sampled == {} && chosen == {}
      modifies this`fullyFreed, this`views, this`parked
      ensures Valid() && order == old(order) && parked == old(parked)
      ensures if old(fullyFreed) == [] then r == null && fullyFreed == [] && views == old(views)
              else r == old(fullyFreed)[0] && fullyFreed == old(fullyFreed)[1..] && r in old(views) && views == old(views) - {r}
    {
      hide *;
      if fullyFreed == [] { return null; }
      ValidParts();
      Parts();
      KeptPick(order, fullyFreed, parked, views, board, mode);
      PickIdle(order, fullyFreed, parked, views, board, mode);
      var pt := fullyFreed[0];
      HeldBy(views, sampled, chosen, pt);
      fullyFreed := fullyFreed[1..];
      parked := parked + {pt};
      Whole();
      Leave(pt);
      assert parked == old(parked);
      r := pt;
    }

    // ----- contributing -----

    /** Take charge of `pt`. */
    method Admit(pt: PageTracker, dense: bool)
      requires Linked() && pt !in views && Sane(Densed(pt.Now(), dense))
      modifies this`views, this`parked, pt`flags
      ensures Linked() && parked == old(parked) + {pt} && views == old(views)[pt := Densed(old(pt.Now()), dense)]
      ensures (forall x :: x in order ==> x in old(views) && x in views) && Tally(order, views, mode) == Tally(order, old(views), mode)
    {
      hide Kept, Boards, Tally;
      KeptNew(order, fullyFreed, parked, views, board, mode, pt, Densed(pt.Now(), dense));
      pt.flags := pt.flags.(dense := dense);
      parked := parked + {pt};
      views := views[pt := pt.Now()];
    }

    method ChargeUsed(dense: bool, used: nat)
      modifies this`pagesAllocated
      ensures Counters() == old(Counters()).(inUse := old(pagesAllocated).With(dense, old(pagesAllocated).At(dense) + used))
      ensures old(Counters()).inUse == old(pagesAllocated)
      ensures Used() == old(Used()) + used
    {
      pagesAllocated := pagesAllocated.With(dense, pagesAllocated.At(dense) + used);
    }

    method OneMore()
      modifies this`size
      ensures Counters() == old(Counters()).(size := old(Counters()).size + 1)
    {
      size := size + 1;
    }

    method Enter(pt: PageTracker, donate: bool, dense: bool)
      requires Linked() && Tallied() && pt !in views && pt !in parked && Contributable(pt.Now(), donate, dense)
      modifies lists.Values, pt`flags, this`order, this`parked, this`board, this`views, this`nUsedReleased, this`nUsedPartial
      modifies this`fullyFreed, this`pagesAllocated, this`size
      ensures Linked() && Tallied() && fullyFreed == old(fullyFreed) && parked == old(parked)
      ensures order == [pt] + old(order) && views == old(views)[pt := Contributed(old(pt.Now()), donate, dense)]
      ensures Used() == old(Used()) + old(pt.free.nused)
    {
      hide *;
      TallyParts();
      ghost var s, rest := pt.Now(), Tally(order, views, mode);
      ContributableFits(s, donate, dense);
      pt.Fields();
      ChargeUsed(dense, pt.free.nused);
      Admit(pt, dense);
      Join(pt, donate, s, dense);
      assert parked == old(parked) && views == old(views)[pt := Contributed(s, donate, dense)];
      ContributedBooks(s, donate, dense, mode, rest, Counters());
      OneMore();
      TallyPut(old(order), views, mode, pt);
      Parts();
      TallyWhole();
    }

    /** A new tracker, already in use, joins the filler. */
    method Contribute(pt: PageTracker, donate: bool, dense: bool)
      requires Valid() && pt !in views && Contributable(pt.Now(), donate, dense)
      modifies this, lists.Values, pt`flags
      ensures Valid() && fullyFreed == old(fullyFreed) && parked == old(parked) && sampled == old(sampled) && chosen == old(chosen)
      ensures order == [pt] + old(order) && views == old(views)[pt := Contributed(old(pt.Now()), donate, dense)]
      ensures unmappingUnaccounted == old(unmappingUnaccounted)
      ensures Used() == old(Used()) + old(pt.free.nused)
    {
      hide *;
      ValidParts();
      Parts();
      NotParked(order, fullyFreed, parked, views, board, mode, pt);
      ContributedHolds(views, sampled, chosen, parked, pt, Contributed(pt.Now(), donate, dense));
      Enter(pt, donate, dense);
      ValidWhole();
    }

    /** Put the new tracker `pt` on its list. */
    method Join(pt: PageTracker, donate: bool, ghost s: State, ghost dense: bool)
      requires Linked() && pt in parked && pt in views && views[pt] == Densed(s, dense) && Contributable(s, donate, dense)
      modifies lists.Values, pt`flags, this`order, this`parked, this`board, this`views, this`nUsedReleased, this`nUsedPartial, this`fullyFreed
      ensures Linked() && order == [pt] + old(order) && parked == old(parked) - {pt} && fullyFreed == old(fullyFreed)
      ensures views == old(views)[pt := Contributed(s, donate, dense)]
      ensures Counters() == Add(old(Counters()), OnList(Contributed(s, donate, dense), mode))
      ensures (forall x :: x in old(order) ==> x in old(views) && x in views) && Tally(old(order), views, mode) == Tally(old(order), old(views), mode)
    {
      hide *;
      ContributableFits(s, donate, dense);
      if donate {
        DonateToFillerList(pt);
        DonatedFlag(s, dense);
        DonatedAdds(Contributed(s, donate, dense), mode, Counters());
      } else {
        AddToFillerList(pt);
      }
    }

    // ----- releasing -----

    /** Release the free pages of the parked tracker `pt`. */
    method ReleaseOn(pt: PageTracker, unback: (nat, nat) -> bool) returns (count: nat, ghost done: set<nat>)
      requires Linked() && pt in parked && pt in views && Sane(views[pt]) && !views[pt].flags.collapsing
      requires (forall x :: x in order ==> x in views) && Counters() == Add(Loose(views[pt]), Tally(order, views, mode))
      modifies pt, this`views, this`unmapped
      ensures Linked() && pt in views && views == old(views)[pt := views[pt]] && Sane(views[pt])
      ensures Released(old(views)[pt], views[pt], done, count == 0 && old(views)[pt].unbroken) && count == |done|
      ensures (forall a: nat, b: nat :: unback(a, b)) ==> done == old(views)[pt].Backed()
      ensures (forall x :: x in order ==> x in views) && Counters() == Add(Loose(views[pt]), Tally(order, views, mode))
      ensures unmapped == old(unmapped) + count
    {
      hide Kept, Boards, Released, Ok, Sane, Tally, Loose, Add, PageTracker.Now, State.Backed, Unbacked, PagesOf, InTurn;
      SaneOk(views[pt]);
      ViewOf(pt);
      ghost var asked;
      count, asked := pt.ReleaseFree(unback);
      done := Unbacked(asked, unback);
      AllUnbacked(asked, unback);
      ReleasedSane(views[pt], pt.Now(), done, count == 0 && views[pt].unbroken);
      ReleasedBooks(views[pt], pt.Now(), done, count == 0 && views[pt].unbroken, Tally(order, views, mode), Counters());
      KeptSet(order, fullyFreed, parked, views, board, mode, pt, pt.Now());
      views := views[pt := pt.Now()];
      unmapped := unmapped + count;
    }

    /** Release the free pages of `pt` and move it to the list for its new state. */
    method ReleaseFrom(pt: PageTracker, unback: (nat, nat) -> bool) returns (count: nat, ghost done: set<nat>)
      requires Valid() && pt in order && pt in views && !views[pt].flags.collapsing
      modifies this, lists.Values, pt
      ensures Valid() && parked == old(parked) && fullyFreed == old(fullyFreed) && sampled == old(sampled) && chosen == old(chosen)
      ensures order == [pt] + Without(old(order), pt) && ReleaseDone(old(views), views, pt, done) && count == |done|
      ensures (forall a: nat, b: nat :: unback(a, b)) ==> done == old(views)[pt].Backed()
      ensures unmapped == old(unmapped) + count && unmappingUnaccounted == old(unmappingUnaccounted)
      ensures size == old(size) && pagesAllocated == old(pagesAllocated)
    {
      hide *;
      ValidParts();
      Parts();
      OrderKnown(order, fullyFreed, parked, views, board, mode, pt);
      RemoveFromFillerList(pt);
      HomeOf(views[pt], mode);
      count, done := ReleaseOn(pt, unback);
      ReleaseStays(old(views)[pt], views[pt], done, count == 0 && old(views)[pt].unbroken);
      ReleaseDoneAt(old(views), views, old(parked), sampled, chosen, pt, done, count == 0 && old(views)[pt].unbroken);
      Return(pt);
      assert parked == old(parked);
      assert views == old(views)[pt := views[pt]];
      ValidWhole();
    }

    /** A candidate than which none is worse: what a heap ordered by `Before` has in front. */
    method WorstOf(cands: seq<PageTracker>) returns (w: nat)
      requires Agree() && cands != [] && forall t :: t in cands ==> t in views
      ensures Worst(cands, views, w)
    {
      hide PageTracker.Now, Agree;
      w := 0;
      ViewOf(cands[0]);
      for j := 1 to |cands|
        invariant w < j && Agree()
        invariant forall k :: 0 <= k < j ==> cands[k] in views && cands[w] in views && Key(views[cands[k]]) <= Key(views[cands[w]])
      {
        var a, b := cands[w], cands[j];
        ViewOf(a);
        ViewOf(b);
        BeforeIsKey(views[a], views[b]);
        if Before(a.free.nused, a.flags.dense, b.free.nused, b.flags.dense) { w := j; }
      }
    }

    /** Consider `pt` as a candidate: it takes a free place, or that of a worst one. */
    method PushCandidate(cands: seq<PageTracker>, pt: PageTracker, ghost seen: set<PageTracker>)
      returns (cands': seq<PageTracker>, ghost seen': set<PageTracker>)
      requires Agree() && Chosen(cands, seen, views) && NoneLost(cands, seen) && pt in views && pt !in seen
      ensures Chosen(cands', seen', views) && NoneLost(cands', seen')
      ensures seen' == if views[pt].flags.collapsing then seen else seen + {pt}
    {
      hide PageTracker.Now, Agree, Chosen, NoneLost, Worst;
      ViewOf(pt);
      if pt.flags.collapsing { return cands, seen; }
      seen' := seen + {pt};
      if |cands| < CANDIDATES {
        PushRoom(cands, seen, views, pt);
        cands' := cands + [pt];
        return;
      }
      ChosenKnown(cands, seen, views);
      var w := WorstOf(cands);
      WorstKnown(cands, views, w);
      var worst := cands[w];
      ViewOf(worst);
      BeforeIsKey(views[worst], views[pt]);
      if Before(worst.free.nused, worst.flags.dense, pt.free.nused, pt.flags.dense) {
        PushWorse(cands, seen, views, pt, w);
        cands' := cands;
      } else {
        PushBetter(cands, seen, views, pt, w);
        cands' := cands[w := pt];
      }
    }

    /** Consider the trackers of list `i` of family `f`. */
    method ScanList(cands0: seq<PageTracker>, f: Family, i: nat, ghost seen0: set<PageTracker>, ghost base: set<PageTracker>)
      returns (cands: seq<PageTracker>, ghost seen: set<PageTracker>)
      requires Linked() && f in lists && i < lists[f].n && f in board && i < |board[f]| && lists[f].lists == board[f]
      requires Gathering(order, views, mode, f, i, cands0, seen0, base) && i >= Start(f) && !f.AllReleased?
      ensures Gathering(order, views, mode, f, i + 1, cands, seen, base)
    {
      hide *;
      Parts();
      cands, seen := cands0, seen0;
      var list := lists[f].lists[i];
      ListScanStart(order, views, mode, f, i, cands, seen, base);
      for k := 0 to |list|
        invariant ListScan(order, views, mode, f, i, cands, seen, base, list[..k])
      {
        ListScanNext(order, fullyFreed, parked, views, board, mode, f, i, cands, seen, base, k);
        ghost var c, s := cands, seen;
        cands, seen := PushCandidate(cands, list[k], seen);
        ListScanStep(order, fullyFreed, parked, views, board, mode, f, i, c, cands, s, seen, base, k);
      }
      assert list[..|list|] == list;
      ListScanEnd(order, fullyFreed, parked, views, board, mode, f, i, cands, seen, base);
    }

    /** Consider the trackers of family `f`, on top of those considered so far. */
    method SelectCandidates(cands0: seq<PageTracker>, f: Family, ghost fs: seq<Family>, ghost seen0: set<PageTracker>)
      returns (cands: seq<PageTracker>, ghost seen: set<PageTracker>)
      requires Linked() && Gathered(order, views, mode, fs, cands0, seen0) && f !in fs && !f.AllReleased?
      ensures Gathered(order, views, mode, fs + [f], cands, seen)
    {
      hide *;
      Parts();
      ListsOf(f);
      cands, seen := cands0, seen0;
      GatherStart(order, views, mode, fs, cands, seen, f);
      var i := lists[f].FindSet(Start(f));
      ScanSkip(order, fullyFreed, parked, views, board, mode, f, Start(f), i, cands, seen, seen0);
      while i < lists[f].n
        invariant Start(f) <= i <= lists[f].n && Gathering(order, views, mode, f, i, cands, seen, seen0)
      {
        cands, seen := ScanList(cands, f, i, seen, seen0);
        var j := lists[f].FindSet(i + 1);
        ScanSkip(order, fullyFreed, parked, views, board, mode, f, i + 1, j, cands, seen, seen0);
        i := j;
      }
      GatherEnd(order, fullyFreed, parked, views, board, mode, fs, cands0, seen0, f, cands, seen);
    }

    lemma ListsOf(f: Family)
      requires Boards()
      ensures f in lists && f in board && lists[f].Valid() && lists[f].n == NumLists(f) && lists[f].lists == board[f]
      ensures |board[f]| == lists[f].n && Start(f) <= lists[f].n
    {
    }

    /** What releasing leaves alone. */
    ghost function Unreleased(): (set<PageTracker>, seq<PageTracker>, set<PageTracker>, set<PageTracker>, nat, PerType)
      reads this`parked, this`fullyFreed, this`sampled, this`chosen, this`size, this`pagesAllocated
    {
      (parked, fullyFreed, sampled, chosen, size, pagesAllocated)
    }

    /** A candidate than which none is better: the next one in sorted order. */
    method BestOf(cands: seq<PageTracker>) returns (b: nat)
      requires Agree() && cands != [] && forall t :: t in cands ==> t in views
      ensures b < |cands| && forall j :: 0 <= j < |cands| ==> Key(views[cands[b]]) <= Key(views[cands[j]])
    {
      hide PageTracker.Now, Agree;
      b := 0;
      ViewOf(cands[0]);
      for j := 1 to |cands|
        invariant b < j && Agree()
        invariant forall k :: 0 <= k < j ==> Key(views[cands[b]]) <= Key(views[cands[k]])
      {
        var x, y := cands[j], cands[b];
        ViewOf(x);
        ViewOf(y);
        BeforeIsKey(views[x], views[y]);
        if Before(x.free.nused, x.flags.dense, y.free.nused, y.flags.dense) { b := j; }
      }
    }

    /** Release from the candidates, best first, until `target` pages are released. `unback`
        says how the attempts go, by number of the candidate. */
    method ReleaseCandidates(cands: seq<PageTracker>, target: nat, unback: (nat, nat, nat) -> bool, from: nat, ghost success: bool)
      returns (released: nat, k: nat, ghost left: seq<PageTracker>)
      requires Valid() && Candidates(order, views, cands) && (success ==> forall k: nat, a: nat, b: nat :: unback(k, a, b))
      modifies this, lists.Values, views.Keys
      ensures Valid() && Unreleased() == old(Unreleased()) && unmappingUnaccounted == old(unmappingUnaccounted)
      ensures Subsided(old(views), views, mode, success) && SetOf(order) == SetOf(old(order))
      ensures unmapped == old(unmapped) + released
      ensures success && cands != [] && target > 0 ==> released > 0
      ensures cands == [] ==> released == 0 && views == old(views) && order == old(order)
      ensures BestFirst(cands, left, old(views), views) && (left == [] || released >= target)
    {
      hide Valid, Candidates, Subsided, SetOf, Counters, Unreleased, BestFirst, NoDup;
      released := 0;
      var rest := cands;
      k := from;
      SubsidedSelf(views, mode, success);
      BestFirstStart(order, cands, views);
      while rest != [] && released < target
        invariant Valid() && Candidates(order, views, rest) && Unreleased() == old(Unreleased())
        invariant unmappingUnaccounted == old(unmappingUnaccounted)
        invariant Subsided(old(views), views, mode, success) && SetOf(order) == SetOf(old(order)) && views.Keys == old(views).Keys
        invariant unmapped == old(unmapped) + released && (rest == cands || (success ==> released > 0))
        invariant cands == [] ==> rest == [] && released == 0 && views == old(views) && order == old(order)
        invariant BestFirst(cands, rest, old(views), views)
        decreases |rest|
      {
        ghost var v, o := views, order;
        var b, count, done := ReleaseBest(rest, unback, k, success);
        SubsidedStep(old(views), v, views, mode, success, rest[b], done);
        CandidatesNoDup(o, v, rest);
        BestFirstStep(cands, rest, old(views), v, views, b, done);
        CandidatesRest(o, order, v, views, rest, b, done);
        released := released + count;
        rest, k := rest[..b] + rest[b + 1..], k + 1;
      }
      left := rest;
    }

    /** Release from the best candidate. */
    method ReleaseBest(cands: seq<PageTracker>, unback: (nat, nat, nat) -> bool, k: nat, ghost success: bool)
      returns (b: nat, count: nat, ghost done: set<nat>)
      requires Valid() && Candidates(order, views, cands) && cands != [] && (success ==> forall k: nat, a: nat, b: nat :: unback(k, a, b))
      modifies this, lists.Values, views.Keys
      ensures Valid() && Unreleased() == old(Unreleased()) && unmappingUnaccounted == old(unmappingUnaccounted)
      ensures b < |cands| && cands[b] in old(views) && Releasable(old(views)[cands[b]])
      ensures forall j :: 0 <= j < |cands| ==> cands[j] in old(views) && cands[b] in old(views) && Key(old(views)[cands[b]]) <= Key(old(views)[cands[j]])
      ensures ReleaseDone(old(views), views, cands[b], done) && SetOf(order) == SetOf(old(order)) && views.Keys == old(views).Keys
      ensures unmapped == old(unmapped) + count && count == |done| && (success ==> done == old(views)[cands[b]].Backed())
    {
      hide Valid, SetOf, Counters, ReleaseDone, State.Backed, Without, Sane;
      ValidParts();
      Parts();
      b := BestOf(cands);
      var pt := cands[b];
      assert pt in cands;
      SetOfMoved(order, pt);
      count, done := ReleaseFrom(pt, (x: nat, y: nat) => unback(k, x, y));
      ReleaseKeys(old(views), views, pt, done);
    }

    /** The counters know the free pages that are backed. */
    lemma FreePages()
      requires Valid()
      ensures (forall t :: t in order ==> t in views) && FreeOf(Counters()) == BackedSum(order, views) >= 0
    {
      hide *;
      ValidParts();
      Parts();
      TallyParts();
      FreeTally(order, views, mode);
      AllOk(order, fullyFreed, parked, views, board, mode);
      BackedSumNonNeg(order, views);
    }

    /** Gather the best candidates of several families. */
    method GatherFrom(fs: seq<Family>) returns (cands: seq<PageTracker>, ghost seen: set<PageTracker>)
      requires Valid() && NoDup(fs) && forall f :: f in fs ==> !f.AllReleased?
      ensures Gathered(order, views, mode, fs, cands, seen)
    {
      hide *;
      ValidParts();
      cands, seen := [], {};
      GatherNone(order, views, mode);
      for k := 0 to |fs|
        invariant Gathered(order, views, mode, fs[..k], cands, seen)
      {
        FreshFamily(fs, k);
        cands, seen := SelectCandidates(cands, fs[k], fs[..k], seen);
        assert fs[..k] + [fs[k]] == fs[..k + 1];
      }
      assert fs[..|fs|] == fs;
    }

    /** Release from the families `fs`, a batch of candidates at a time, until `desired`
        pages are released in all or nothing more can be. */
    method ReleaseLoop(fs: seq<Family>, desired: nat, total0: nat, unback: (nat, nat, nat) -> bool, from: nat, ghost success: bool)
      returns (total: nat, k: nat)
      requires Valid() && NoDup(fs) && (forall f :: f in fs ==> !f.AllReleased?)
      requires success ==> forall k: nat, a: nat, b: nat :: unback(k, a, b)
      modifies this, lists.Values, views.Keys
      ensures Valid() && Unreleased() == old(Unreleased()) && unmappingUnaccounted == old(unmappingUnaccounted)
      ensures Subsided(old(views), views, mode, success) && SetOf(order) == SetOf(old(order)) && views.Keys == old(views).Keys
      ensures total - total0 == unmapped - old(unmapped) && total >= total0
      ensures total >= desired || (success ==> Drained(order, views, mode, fs))
    {
      hide Valid, Gathered, Subsided, SetOf, Drained, Unreleased, NoDup, FreeOf;
      total, k := total0, from;
      SubsidedSelf(views, mode, success);
      while total < desired
        invariant Valid() && Unreleased() == old(Unreleased()) && unmappingUnaccounted == old(unmappingUnaccounted)
        invariant Subsided(old(views), views, mode, success) && SetOf(order) == SetOf(old(order)) && views.Keys == old(views).Keys
        invariant total - total0 == unmapped - old(unmapped) && total >= total0
        decreases FreeNow()
      {
        var released;
        released, k := ReleaseBatch(fs, desired - total, unback, k, old(views), success);
        if released == 0 { break; }
        total := total + released;
      }
    }

    ghost function FreeNow(): int
      reads this`size, this`pagesAllocated, this`unmapped, this`nUsedReleased, this`nUsedPartial
    {
      FreeOf(Counters())
    }

    lemma FreeIs()
      ensures FreeNow() == FreeOf(Counters()) == size * PAGES - Used() - unmapped
      ensures Unreleased().4 == size && Used() == Unreleased().5.sparse + Unreleased().5.dense
    {
    }

    /** Release from one batch of candidates. */
    method ReleaseBatch(fs: seq<Family>, target: nat, unback: (nat, nat, nat) -> bool, k: nat, ghost before: Views, ghost success: bool)
      returns (released: nat, next: nat)
      requires Valid() && NoDup(fs) && (forall f :: f in fs ==> !f.AllReleased?) && target > 0
      requires (success ==> forall k: nat, a: nat, b: nat :: unback(k, a, b)) && Subsided(before, views, mode, success)
      modifies this, lists.Values, views.Keys
      ensures Valid() && Unreleased() == old(Unreleased()) && unmappingUnaccounted == old(unmappingUnaccounted)
      ensures Subsided(before, views, mode, success) && SetOf(order) == SetOf(old(order)) && views.Keys == old(views).Keys
      ensures unmapped == old(unmapped) + released && old(FreeNow()) - FreeNow() == released && FreeNow() >= 0
      ensures released == 0 ==> (success ==> Drained(order, views, mode, fs))
    {
      hide Valid, Linked, Tallied, Agree, Boards, Kept, Gathered, Subsided, SetOf, Drained, NoDup, Candidates, BackedSum;
      var cands, seen := GatherFrom(fs);
      GatheredParts(order, views, mode, fs, cands, seen);
      if cands == [] {
        ValidParts();
        Parts();
        NoCandidates(order, fullyFreed, parked, views, board, mode, fs, seen);
      }
      ghost var left;
      released, next, left := ReleaseCandidates(cands, target, unback, k, success);
      SubsidedTrans(before, old(views), views, mode, success);
      SubsidedKeys(old(views), views, mode, success);
      FreePages();
    }

    /** Hugepages that are broken already come first, whole ones after. */
    method ReleaseBoth(goal: nat, total0: nat, unback: (nat, nat, nat) -> bool, ghost success: bool) returns (total: nat)
      requires Valid() && (success ==> forall k: nat, a: nat, b: nat :: unback(k, a, b))
      modifies this, lists.Values, views.Keys
      ensures Valid() && Unreleased() == old(Unreleased()) && SetOf(order) == SetOf(old(order)) && unmappingUnaccounted == old(unmappingUnaccounted)
      ensures Subsided(old(views), views, mode, success) && total - total0 == unmapped - old(unmapped)
      ensures success && (forall t :: t in old(order) && t in old(views) ==> !old(views)[t].flags.collapsing) ==>
                total >= goal || total - total0 >= old(FreeNow())
    {
      hide Valid, Subsided, SetOf, Drained, NoDup, BackedSum;
      Loops();
      var k;
      total, k := ReleaseLoop(PARTIAL, goal, total0, unback, 0, success);
      ghost var v, o := views, order;
      total, k := ReleaseLoop(WHOLE, goal, total, unback, k, success);
      SubsidedTrans(old(views), v, views, mode, success);
      if success && total < goal && (forall t :: t in old(order) && t in old(views) ==> !old(views)[t].flags.collapsing) {
        DrainedStays(o, order, v, views, mode, PARTIAL);
        SubsidedCollapsing(old(order), order, old(views), views, mode, success);
        AllReleasedNow();
      }
    }

    lemma AllReleasedNow()
      requires Valid() && Drained(order, views, mode, PARTIAL) && Drained(order, views, mode, WHOLE)
      requires forall t :: t in order && t in views ==> !views[t].flags.collapsing
      ensures FreeNow() <= 0
    {
      hide Valid, Drained, Linked, Kept, Agree, Boards;
      ValidParts();
      Parts();
      NothingFree(order, fullyFreed, parked, views, board, mode);
      FreePages();
    }

    lemma Loops()
      ensures NoDup(PARTIAL) && NoDup(WHOLE) && (forall f :: f in PARTIAL || f in WHOLE ==> !f.AllReleased?)
    {
    }

    /** Release free pages until `desired` of them are, if possible. Pages released early are
        taken credit for first. `partial` is what the pages free on broken hugepages ask
        for, `skip` says that recent demand reduces the target, to `reduced`. */
    method ReleasePages(desired: nat, releasePartial: bool, partial: nat, skip: bool, reduced: nat, hitLimit: bool,
                        unback: (nat, nat, nat) -> bool, ghost success: bool) returns (total: nat)
      requires Valid() && (success ==> forall k: nat, a: nat, b: nat :: unback(k, a, b))
      modifies this, lists.Values, views.Keys
      ensures parked == old(parked) && fullyFreed == old(fullyFreed) && sampled == old(sampled) && chosen == old(chosen)
      ensures Valid() && Unreleased() == old(Unreleased()) && SetOf(order) == SetOf(old(order))
      ensures Subsided(old(views), views, mode, success)
      ensures total == old(unmappingUnaccounted) + (unmapped - old(unmapped)) && unmappingUnaccounted == 0
      ensures success && !(skip && !hitLimit) && (forall t :: t in old(order) && t in old(views) ==> !old(views)[t].flags.collapsing) ==>
                total >= desired || total >= old(unmappingUnaccounted) + old(FreeNow())
    {
      hide Valid, Subsided, SetOf, Drained, NoDup, FreeNow;
      SubsidedSelf(views, mode, success);
      var goal := if releasePartial && !hitLimit && partial > desired then partial else desired;
      total := unmappingUnaccounted;
      unmappingUnaccounted := 0;
      if total >= goal { return; }
      if skip && !hitLimit {
        goal := reduced;
        if goal <= total { return; }
      }
      total := ReleaseBoth(goal, total, unback, success);
    }

    // ----- treatments -----

    /** The trackers on the lists of family `f`. */
    method WalkFamily(f: Family) returns (q: seq<PageTracker>)
      requires Linked()
      ensures Walked(order, views, mode, [], f, NumLists(f), q)
    {
      hide *;
      Parts();
      ListsOf(f);
      q := [];
      WalkStart(order, views, mode, f);
      for i := 0 to lists[f].n
        invariant Walked(order, views, mode, [], f, i, q)
      {
        WalkStep(order, fullyFreed, parked, views, board, mode, [], f, i, q);
        q := q + lists[f].lists[i];
      }
    }

    /** Change the flags of `pt` that only treatments use. */
    method Reflag(pt: PageTracker, flags: Flags)
      requires Linked() && Tallied() && AllIdle(parked, views) && pt in views
      requires SameButTreatment(views[pt], views[pt].(flags := flags)) && (flags.collapsing ==> views[pt].releasedCount == 0)
      modifies pt`flags, this`views
      ensures Linked() && Tallied() && AllIdle(parked, views) && views == old(views)[pt := old(views)[pt].(flags := flags)]
    {
      hide Kept, Boards, Tally, Sane, Idle, SameButTreatment, AllIdle;
      ghost var s := views[pt].(flags := flags);
      KnownSane(order, fullyFreed, parked, views, board, mode, pt);
      TreatedSane(views[pt], s);
      KeptFlag(order, fullyFreed, parked, views, board, mode, pt, s);
      IdleStays(parked, views, pt, s);
      pt.flags := flags;
      views := views[pt := s];
    }

    /** In the middle of picking: `q1` for sampling, `q2` for collapse. */
    ghost predicate Picking(q1: seq<PageTracker>, q2: seq<PageTracker>)
      reads this`order, this`fullyFreed, this`parked, this`views, this`board, this`sampled, this`chosen
      reads this`size, this`pagesAllocated, this`unmapped, this`nUsedReleased, this`nUsedPartial, views.Keys, lists.Values
    {
      Linked() && Tallied() && AllIdle(parked, views) && Picks(views, sampled, chosen, q1, q2) && NoneCollapsing(views)
    }

    /** Pick `pt` for sampling, if there is room. */
    method SelectSampled(pt: PageTracker, q1: seq<PageTracker>, ghost q2: seq<PageTracker>) returns (q: seq<PageTracker>)
      requires Picking(q1, q2) && pt in views && pt !in q1
      modifies pt`flags, this`views, this`sampled
      ensures Picking(q, q2) && SameShape(old(views), views) && q == if |q1| < TO_SCAN then q1 + [pt] else q1
    {
      hide Linked, Tallied, AllIdle, Picks, SameButTreatment;
      SameShapeSelf(views);
      if |q1| >= TO_SCAN { return q1; }
      PickSample(views, sampled, chosen, q1, q2, pt);
      ViewFlags(pt);
      SampleFlag(views[pt]);
      SameShapeStep(views, views, pt, WithSample(views[pt], true));
      Reflag(pt, pt.flags.(sampleHold := true));
      sampled := sampled + {pt};
      q := q1 + [pt];
    }

    lemma ViewFlags(t: PageTracker)
      requires Linked() && t in views
      ensures t.flags == views[t].flags
    {
      ViewOf(t);
    }

    method HoldForCollapse(pt: PageTracker)
      requires Linked() && Tallied() && AllIdle(parked, views) && pt in views && !views[pt].flags.collapsing
      modifies pt`flags, this`views
      ensures Linked() && Tallied() && AllIdle(parked, views) && views == old(views)[pt := WithCollapse(old(views)[pt], true)]
    {
      hide Linked, Tallied, AllIdle, SameButTreatment;
      ViewFlags(pt);
      CollapseFlag(views[pt], true);
      Reflag(pt, pt.flags.(collapseHold := true));
    }

    method UnholdForCollapse(pt: PageTracker)
      requires Linked() && Tallied() && AllIdle(parked, views) && pt in views && !views[pt].flags.collapsing
      modifies pt`flags, this`views
      ensures Linked() && Tallied() && AllIdle(parked, views) && views == old(views)[pt := WithCollapse(old(views)[pt], false)]
    {
      hide Linked, Tallied, AllIdle, SameButTreatment;
      ViewFlags(pt);
      CollapseFlag(views[pt], false);
      Reflag(pt, pt.flags.(collapseHold := false));
    }

    /** One of the least urgent picks: the top of the heap. */
    method LowestOf(q: seq<PageTracker>, objects: PageTracker -> nat, ghost v0: Views) returns (w: nat)
      requires Linked() && SameShape(v0, views) && q != [] && forall t :: t in q ==> t in views
      ensures Lowest(objects, v0, q, w)
    {
      hide Linked, SameShape, Urgency;
      w := 0;
      SameKeys(v0, views);
      for j := 1 to |q|
        invariant w < j && forall k :: 0 <= k < j ==> Urgency(objects, v0, q[w]) <= Urgency(objects, v0, q[k])
      {
        Compared(q[w], q[j], objects, v0);
        if Preferred(objects(q[w]), q[w].flags.dense, objects(q[j]), q[j].flags.dense) { w := j; }
      }
    }

    lemma Compared(t: PageTracker, u: PageTracker, objects: PageTracker -> nat, v0: Views)
      requires Linked() && SameShape(v0, views) && t in views && u in views
      ensures Preferred(objects(t), t.flags.dense, objects(u), u.flags.dense) <==> Urgency(objects, v0, t) > Urgency(objects, v0, u)
    {
      hide Linked, SameShape, Preferred, Urgency;
      SameKeys(v0, views);
      ViewFlags(t);
      ViewFlags(u);
      DenseSame(v0, views, t);
      DenseSame(v0, views, u);
      PreferredIsUrgency(objects, v0, t, u);
    }

    /** Pick `pt` for collapse, in a free place or in that of the least urgent pick, unless that one is more urgent. */
    method SelectUnbacked(pt: PageTracker, ghost q1: seq<PageTracker>, q2: seq<PageTracker>, objects: PageTracker -> nat, ghost v0: Views,
                          ghost seen: set<PageTracker>)
      returns (q: seq<PageTracker>)
      requires Picking(q1, q2) && pt in views && pt !in q2 && SameShape(v0, views) && Top(objects, v0, seen, q2)
      modifies views.Keys, this`views, this`chosen
      ensures Picking(q1, q) && SameShape(old(views), views) && Top(objects, v0, seen + {pt}, q) && forall t :: t in q ==> t in q2 || t == pt
    {
      hide Linked, Tallied, AllIdle, Picks, SameShape, SameButTreatment, Holds, Top, Lowest, Urgency;
      SameShapeSelf(views);
      PicksSize(views, sampled, chosen, q1, q2);
      if |q2| < TO_SCAN {
        TopAdd(objects, v0, seen, q2, pt);
        PickCollapse(views, sampled, chosen, q1, q2, pt);
        CollapseFlag(views[pt], true);
        SameShapeStep(views, views, pt, WithCollapse(views[pt], true));
        HoldForCollapse(pt);
        chosen := chosen + {pt};
        q := q2 + [pt];
        return;
      }
      AllPicksKnown(views, sampled, chosen, q1, q2);
      var w := LowestOf(q2, objects, v0);
      LowestIn(objects, v0, q2, w);
      Compared(q2[w], pt, objects, v0);
      if Preferred(objects(q2[w]), q2[w].flags.dense, objects(pt), pt.flags.dense) {
        TopKeep(objects, v0, seen, q2, pt, w);
        return q2;
      }
      TopReplace(objects, v0, seen, q2, pt, w);
      q := Replace(pt, q1, q2, w);
    }

    method Replace(pt: PageTracker, ghost q1: seq<PageTracker>, q2: seq<PageTracker>, w: nat) returns (q: seq<PageTracker>)
      requires Picking(q1, q2) && pt in views && pt !in q2 && w < |q2|
      modifies views.Keys, this`views, this`chosen
      ensures Picking(q1, q) && SameShape(old(views), views) && q == q2[w := pt]
    {
      hide Linked, Tallied, AllIdle, Picks, SameButTreatment, Holds, WithCollapse;
      var last := q2[w];
      PicksKnown(views, sampled, chosen, q1, q2, w);
      PickReplace(views, sampled, chosen, q1, q2, pt, w);
      CollapseFlag(views[pt], true);
      CollapseFlag(views[last], false);
      SameShapeSelf(views);
      SameShapeStep(views, views, pt, WithCollapse(views[pt], true));
      SameShapeStep(views, views[pt := WithCollapse(views[pt], true)], last, WithCollapse(views[last], false));
      HoldForCollapse(pt);
      UnholdForCollapse(last);
      chosen := chosen + {pt} - {last};
      q := q2[w := pt];
    }

    /** Offer `pt` to both treatments. */
    method Offer(pt: PageTracker, q1: seq<PageTracker>, q2: seq<PageTracker>, sample: bool, collapse: bool, objects: PageTracker -> nat,
                 ghost v0: Views, ghost seen1: set<PageTracker>, ghost seen2: set<PageTracker>)
      returns (p1: seq<PageTracker>, p2: seq<PageTracker>)
      requires Picking(q1, q2) && pt in views && pt !in q1 && pt !in q2 && SameShape(v0, views) && Filled(seen1, q1) && Top(objects, v0, seen2, q2)
      modifies views.Keys, this`views, this`sampled, this`chosen
      ensures Picking(p1, p2) && SameShape(v0, views) && views.Keys == old(views).Keys
      ensures Filled(if sample then seen1 + {pt} else seen1, p1) && Top(objects, v0, if collapse then seen2 + {pt} else seen2, p2)
      ensures (forall t :: t in p1 ==> t in q1 || t == pt) && (forall t :: t in p2 ==> t in q2 || t == pt)
    {
      hide Picking, SameShape, SameButTreatment, Filled, Top;
      p1, p2 := q1, q2;
      ghost var v := views;
      SameKeys(v0, views);
      if sample {
        FilledAdd(seen1, q1, pt);
        p1 := SelectSampled(pt, q1, q2);
        SameShapeTrans(v0, v, views);
        SameKeys(v0, views);
      }
      if collapse {
        ghost var v := views;
        p2 := SelectUnbacked(pt, p1, q2, objects, v0, seen2);
        SameShapeTrans(v0, v, views);
        SameKeys(v0, views);
      }
    }

    /** Offer the trackers of family `f`. */
    method SelectFamily(f: Family, q1: seq<PageTracker>, q2: seq<PageTracker>, sampleOk: PageTracker -> bool, collapseOk: PageTracker -> bool,
                        objects: PageTracker -> nat, ghost v0: Views, ghost fs: seq<Family>)
      returns (p1: seq<PageTracker>, p2: seq<PageTracker>)
      requires Picking(q1, q2) && SameShape(v0, views) && f !in fs && PickedFrom(v0, mode, fs, [], q1) && PickedFrom(v0, mode, fs, [], q2)
      requires Filled(Eligible(order, v0, mode, true, sampleOk, fs, []), q1) && Top(objects, v0, Eligible(order, v0, mode, false, collapseOk, fs, []), q2)
      requires Indexed(order, v0, mode)
      modifies views.Keys, this`views, this`sampled, this`chosen
      ensures Picking(p1, p2) && SameShape(v0, views) && views.Keys == old(views).Keys
      ensures PickedFrom(v0, mode, fs + [f], [], p1) && PickedFrom(v0, mode, fs + [f], [], p2)
      ensures Filled(Eligible(order, v0, mode, true, sampleOk, fs + [f], []), p1)
      ensures Top(objects, v0, Eligible(order, v0, mode, false, collapseOk, fs + [f], []), p2)
    {
      hide *;
      PickingParts(q1, q2);
      var all := WalkFamily(f);
      WalkedSame(order, v0, views, mode, f, NumLists(f), all);
      p1, p2 := q1, q2;
      assert all[..0] == [];
      for k := 0 to |all|
        invariant Picking(p1, p2) && SameShape(v0, views) && views.Keys == old(views).Keys && order == old(order)
        invariant Walked(order, v0, mode, [], f, NumLists(f), all)
        invariant PickedFrom(v0, mode, fs, all[..k], p1) && PickedFrom(v0, mode, fs, all[..k], p2)
        invariant Filled(Eligible(order, v0, mode, true, sampleOk, fs, all[..k]), p1)
        invariant Top(objects, v0, Eligible(order, v0, mode, false, collapseOk, fs, all[..k]), p2)
      {
        NotPicked(order, v0, mode, fs, f, NumLists(f), all, k, p1);
        NotPicked(order, v0, mode, fs, f, NumLists(f), all, k, p2);
        EligibleNext(order, v0, mode, true, sampleOk, fs, f, NumLists(f), all, k);
        EligibleNext(order, v0, mode, false, collapseOk, fs, f, NumLists(f), all, k);
        Allowed(mode, f, sampleOk(all[k]), collapseOk(all[k]));
        SameKeys(v0, views);
        ghost var a, b := p1, p2;
        p1, p2 := Offer(all[k], p1, p2, !f.Donated? && sampleOk(all[k]), (!f.AllReleased? || mode) && collapseOk(all[k]), objects, v0,
                        Eligible(order, v0, mode, true, sampleOk, fs, all[..k]), Eligible(order, v0, mode, false, collapseOk, fs, all[..k]));
        PickedMore(v0, mode, fs, all, k, a, p1);
        PickedMore(v0, mode, fs, all, k, b, p2);
      }
      assert all[..|all|] == all;
      PickedFamily(order, v0, mode, fs, f, NumLists(f), all, p1);
      PickedFamily(order, v0, mode, fs, f, NumLists(f), all, p2);
      EligibleFamily(order, v0, mode, true, sampleOk, fs, f, all);
      EligibleFamily(order, v0, mode, false, collapseOk, fs, f, all);
    }

    lemma PickingParts(q1: seq<PageTracker>, q2: seq<PageTracker>)
      requires Picking(q1, q2)
      ensures Linked() && Tallied() && AllIdle(parked, views) && Picks(views, sampled, chosen, q1, q2) && NoneCollapsing(views)
      ensures Holds(views, sampled, chosen)
    {
    }

    /** Pick trackers for both treatments, and hold them. What is eligible is up to clocks and page flags, and `objects` says how
        many objects there are on a tracker. For sampling any will do; for collapse none that is left out is more urgent. */
    method SelectTrackers(sampleOk: PageTracker -> bool, collapseOk: PageTracker -> bool, objects: PageTracker -> nat)
      returns (q1: seq<PageTracker>, q2: seq<PageTracker>)
      requires Valid() && sampled == {} && chosen == {}
      modifies views.Keys, this`views, this`sampled, this`chosen
      ensures Valid() && SameShape(old(views), views) && Picks(views, sampled, chosen, q1, q2) && NoneCollapsing(views)
      ensures Filled(AllEligible(order, old(views), mode, true, sampleOk), q1)
      ensures Top(objects, old(views), AllEligible(order, old(views), mode, false, collapseOk), q2)
    {
      hide Valid, Picking, SameShape, PickedFrom, NoDup, Filled, Top, Eligible, AllEligible, Indexed;
      q1, q2 := [], [];
      PickNone(sampleOk, collapseOk, objects);
      ghost var v0 := views;
      SameShapeSelf(views);
      var fs := [Partial(false), Partial(true), Donated, Regular(true), Regular(false), AllReleased(false), AllReleased(true)];
      assert NoDup(fs) by { AllDistinct(); }
      for k := 0 to |fs|
        invariant Picking(q1, q2) && SameShape(v0, views) && views.Keys == old(views).Keys
        invariant PickedFrom(v0, mode, fs[..k], [], q1) && PickedFrom(v0, mode, fs[..k], [], q2)
        invariant Filled(Eligible(order, v0, mode, true, sampleOk, fs[..k], []), q1)
        invariant Top(objects, v0, Eligible(order, v0, mode, false, collapseOk, fs[..k], []), q2)
      {
        NoDupAt(fs, k);
        q1, q2 := SelectFamily(fs[k], q1, q2, sampleOk, collapseOk, objects, v0, fs[..k]);
        assert fs[..k] + [fs[k]] == fs[..k + 1];
      }
      assert fs[..|fs|] == fs;
      EveryFamily(order, v0, mode, true, sampleOk, fs);
      EveryFamily(order, v0, mode, false, collapseOk, fs);
      PickingParts(q1, q2);
      ValidWhole();
    }

    lemma PickNone(sampleOk: PageTracker -> bool, collapseOk: PageTracker -> bool, objects: PageTracker -> nat)
      requires Valid() && sampled == {} && chosen == {}
      ensures Picking([], []) && PickedFrom(views, mode, [], [], []) && Indexed(order, views, mode)
      ensures Filled(Eligible(order, views, mode, true, sampleOk, [], []), [])
      ensures Top(objects, views, Eligible(order, views, mode, false, collapseOk, [], []), [])
    {
      Parts();
      AllIndexed(order, fullyFreed, parked, views, board, mode);
      NoneEligible(order, views, mode, true, sampleOk);
      NoneEligible(order, views, mode, false, collapseOk);
      hide Kept, Eligible, Indexed;
    }

    /** Start to collapse `pt`, one of the chosen trackers, unless some of its pages are released. */
    method CollapseStart(pt: PageTracker) returns (ok: bool)
      requires Valid() && pt in chosen && !views[pt].flags.collapsing
      modifies pt`flags, this`views
      ensures Valid() && pt in old(views) && ok == (old(views)[pt].released == {})
      ensures views == old(views)[pt := WithCollapsing(old(views)[pt], ok)]
    {
      hide *;
      ValidParts();
      Parts();
      ChosenKnown2(views, sampled, chosen, pt);
      KnownSane(order, fullyFreed, parked, views, board, mode, pt);
      SaneOk(views[pt]);
      OkParts(views[pt]);
      ViewFlags(pt);
      ViewOf(pt);
      CollapsingFlag(views, sampled, chosen, pt);
      if pt.releasedCount > 0 { return false; }
      Reflag(pt, pt.flags.(collapsing := true));
      ValidWhole();
      ok := true;
    }

    /** Done collapsing `pt`; none of its pages has been released meanwhile. */
    method CollapseStop(pt: PageTracker)
      requires Valid() && pt in chosen && pt in views && views[pt].flags.collapsing
      modifies pt`flags, this`views
      ensures Valid() && old(views)[pt].released == {} && views == old(views)[pt := WithCollapsing(old(views)[pt], false)]
    {
      hide *;
      ValidParts();
      Parts();
      KnownSane(order, fullyFreed, parked, views, board, mode, pt);
      CollapsingUnreleased(views[pt]);
      ViewFlags(pt);
      CollapsingFlag(views, sampled, chosen, pt);
      Reflag(pt, pt.flags.(collapsing := false));
      ValidWhole();
    }

    /** Release what can be released of `pt`, to be credited to a later `ReleasePages`. */
    method HandleReleaseFree(pt: PageTracker, unback: (nat, nat) -> bool) returns (count: nat)
      requires Valid() && pt in order && pt in views && !views[pt].flags.collapsing
      modifies this, lists.Values, pt
      ensures Valid() && parked == old(parked) && fullyFreed == old(fullyFreed) && sampled == old(sampled) && chosen == old(chosen)
      ensures pt in order && SetOf(order) == SetOf(old(order)) && views.Keys == old(views).Keys && SameHolds(old(views), views)
      ensures unmapped == old(unmapped) + count && unmappingUnaccounted == old(unmappingUnaccounted) + count
    {
      hide *;
      ValidParts();
      Parts();
      SetOfMoved(order, pt);
      ghost var done;
      count, done := ReleaseFrom(pt, unback);
      ReleaseHolds(old(views), views, pt, done);
      unmappingUnaccounted := unmappingUnaccounted + count;
    }

    /** Mark the free pages of the parked tracker `pt` that were found unbacked. */
    method MarkOn(pt: PageTracker, unbacked: set<nat>) returns (count: nat)
      requires Linked() && pt in parked && pt in views && Sane(views[pt]) && !views[pt].flags.collapsing
      requires (forall x :: x in order ==> x in views) && Counters() == Add(Loose(views[pt]), Tally(order, views, mode))
      modifies pt, this`views, this`unmapped
      ensures Linked() && pt in views && views == old(views)[pt := views[pt]] && Sane(views[pt])
      ensures Released(old(views)[pt], views[pt], old(views)[pt].Backed() * unbacked, false) && count == |old(views)[pt].Backed() * unbacked|
      ensures (forall x :: x in order ==> x in views) && Counters() == Add(Loose(views[pt]), Tally(order, views, mode))
      ensures unmapped == old(unmapped) + count
    {
      hide Kept, Boards, Released, Ok, Sane, Tally, Loose, Add, PageTracker.Now, State.Backed;
      SaneOk(views[pt]);
      ViewOf(pt);
      count := pt.MarkSubreleased(unbacked);
      ghost var done := views[pt].Backed() * unbacked;
      ReleasedSane(views[pt], pt.Now(), done, false);
      ReleasedBooks(views[pt], pt.Now(), done, false, Tally(order, views, mode), Counters());
      KeptSet(order, fullyFreed, parked, views, board, mode, pt, pt.Now());
      views := views[pt := pt.Now()];
      unmapped := unmapped + count;
    }

    /** The hugepage of `pt` was found broken up; count its unbacked free pages as released. */
    method HandleUnbackedHugePage(pt: PageTracker, unbacked: set<nat>) returns (count: nat)
      requires Valid() && pt in order && pt in views && !views[pt].flags.collapsing
      modifies this, lists.Values, pt
      ensures Valid() && parked == old(parked) && fullyFreed == old(fullyFreed) && sampled == old(sampled) && chosen == old(chosen)
      ensures pt in order && SetOf(order) == SetOf(old(order)) && views.Keys == old(views).Keys && SameHolds(old(views), views)
      ensures unmapped == old(unmapped) + count && unmappingUnaccounted == old(unmappingUnaccounted) + count
      ensures count == |old(views)[pt].Backed() * unbacked|
    {
      hide *;
      ValidParts();
      Parts();
      OrderKnown(order, fullyFreed, parked, views, board, mode, pt);
      SetOfMoved(order, pt);
      RemoveFromFillerList(pt);
      HomeOf(views[pt], mode);
      ghost var done := views[pt].Backed() * unbacked;
      count := MarkOn(pt, unbacked);
      ReleaseStays(old(views)[pt], views[pt], done, false);
      ReleaseDoneAt(old(views), views, old(parked), sampled, chosen, pt, done, false);
      Return(pt);
      ReleaseHolds(old(views), views, pt, done);
      unmappingUnaccounted := unmappingUnaccounted + count;
      assert parked == old(parked);
      ValidWhole();
    }

    /** The hugepage of `pt` has been put together again. */
    method OnCollapseSuccess(pt: PageTracker)
      requires Valid() && pt in order && pt in views
      modifies this, lists.Values, pt
      ensures Valid() && parked == old(parked) && fullyFreed == old(fullyFreed) && sampled == old(sampled) && chosen == old(chosen)
      ensures SetOf(order) == SetOf(old(order)) && views.Keys == old(views).Keys && SameHolds(old(views), views)
      ensures views == if old(views)[pt].unbroken then old(views) else old(views)[pt := Undonated(Mended(old(views)[pt]))]
    {
      hide *;
      SameHoldsSelf(views);
      ValidParts();
      Parts();
      OrderKnown(order, fullyFreed, parked, views, board, mode, pt);
      ViewOf(pt);
      if pt.unbroken { return; }
      SetOfMoved(order, pt);
      MendedHolds(views, parked, sampled, chosen, pt);
      RemoveFromFillerList(pt);
      Mend(pt);
      Return(pt);
      assert parked == old(parked);
      assert views == old(views)[pt := Undonated(Mended(old(views)[pt]))];
      ValidWhole();
    }

    method Mend(pt: PageTracker)
      requires Linked() && pt in parked && pt in views && InUse(views[pt])
      requires (forall x :: x in order ==> x in views) && Counters() == Add(Loose(views[pt]), Tally(order, views, mode))
      modifies pt`unbroken, this`views
      ensures Linked() && views == old(views)[pt := Mended(old(views)[pt])] && InUse(Undonated(views[pt])) && views[pt].free.longest < PAGES
      ensures (forall x :: x in order ==> x in views) && Counters() == Add(Loose(views[pt]), Tally(order, views, mode))
    {
      hide Kept, Boards, Sane, InUse, Tally, Loose, Add;
      ViewOf(pt);
      MendedFits(views[pt], Tally(order, views, mode));
      KeptSet(order, fullyFreed, parked, views, board, mode, pt, Mended(views[pt]));
      pt.unbroken := true;
      views := views[pt := Mended(views[pt])];
    }

    /** Give back the trackers picked for sampling. */
    method RestoreSampled(q1: seq<PageTracker>)
      requires Valid() && NoDup(q1) && SetOf(q1) == sampled && NoneCollapsing(views)
      modifies views.Keys, this`views, this`sampled
      ensures Valid() && sampled == {} && views.Keys == old(views).Keys && NoneCollapsing(views)
      ensures SameAllocs(old(views), views)
    {
      hide Valid, NoDup, NoneCollapsing, SameAllocs;
      SameAllocsSelf(views);
      assert q1[0..] == q1;
      for k := 0 to |q1|
        invariant Valid() && SetOf(q1[k..]) == sampled && views.Keys == old(views).Keys && NoneCollapsing(views)
        invariant SameAllocs(old(views), views)
      {
        RestOf(q1, k);
        ghost var v := views;
        ReleaseOneSampled(q1[k]);
        SameAllocsTrans(old(views), v, views);
      }
    }

    method ReleaseOneSampled(pt: PageTracker)
      requires Valid() && pt in sampled && NoneCollapsing(views)
      modifies views.Keys, this`views, this`sampled
      ensures Valid() && sampled == old(sampled) - {pt} && views.Keys == old(views).Keys && NoneCollapsing(views)
      ensures SameAllocs(old(views), views)
    {
      hide *;
      ValidParts();
      SampledKnown(views, sampled, chosen, pt);
      ReleaseSample(views, sampled, chosen, pt);
      ViewFlags(pt);
      NoneCollapsingAt(views, pt);
      NoneCollapsingFlag(views, pt, pt.flags.(sampleHold := false));
      FlagAllocs(views, pt, pt.flags.(sampleHold := false));
      Reflag(pt, pt.flags.(sampleHold := false));
      sampled := sampled - {pt};
      ValidWhole();
    }

    /** Give back one tracker picked for collapse, and record what was found. */
    method RestoreOne(pt: PageTracker, r: Residency, unback: (nat, nat) -> bool)
      requires Valid() && pt in chosen && NoneCollapsing(views)
      modifies this, lists.Values, views.Keys
      ensures Valid() && sampled == old(sampled) && chosen == old(chosen) - {pt} && views.Keys == old(views).Keys && NoneCollapsing(views)
      ensures fullyFreed == old(fullyFreed) && parked == old(parked) && SetOf(order) == SetOf(old(order))
      ensures SameAllocs(old(views), views)
    {
      hide *;
      ValidParts();
      ChosenKnown2(views, sampled, chosen, pt);
      NoneCollapsingAt(views, pt);
      ReleaseChosen(views, sampled, chosen, pt);
      CollapseFlag(views[pt], false);
      NoneCollapsingFlag(views, pt, views[pt].flags.(collapseHold := false));
      FlagAllocs(views, pt, views[pt].flags.(collapseHold := false));
      UnholdForCollapse(pt);
      chosen := chosen - {pt};
      ValidWhole();
      Parts();
      WhereEmpty(order, fullyFreed, parked, views, board, mode, pt);
      ViewOf(pt);
      if pt.free.longest == PAGES { return; }
      ghost var v := views;
      Settled(pt, r, unback);
      SameAllocsTrans(old(views), v, views);
    }

    method Settled(pt: PageTracker, r: Residency, unback: (nat, nat) -> bool)
      requires Valid() && pt in order && pt in views && NoneCollapsing(views)
      modifies this, lists.Values, pt
      ensures Valid() && sampled == old(sampled) && chosen == old(chosen) && views.Keys == old(views).Keys && NoneCollapsing(views)
      ensures fullyFreed == old(fullyFreed) && parked == old(parked) && SetOf(order) == SetOf(old(order))
      ensures SameAllocs(old(views), views)
    {
      hide *;
      SameAllocsSelf(views);
      NoneCollapsingAt(views, pt);
      if r.backed {
        if mode {
          OnCollapseSuccess(pt);
          NoneCollapsingStep(old(views), views);
          HoldsAllocs(old(views), views);
        }
        return;
      }
      if r.swapped {
        var count := HandleReleaseFree(pt, unback);
        NoneCollapsingStep(old(views), views);
        NoneCollapsingAt(views, pt);
        HoldsAllocs(old(views), views);
      }
      if mode {
        ghost var v := views;
        var count := HandleUnbackedHugePage(pt, r.unbacked);
        NoneCollapsingStep(v, views);
        HoldsAllocs(v, views);
        SameAllocsTrans(old(views), v, views);
      }
    }

    /** Give back all trackers under treatment. */
    method Restore(q1: seq<PageTracker>, q2: seq<PageTracker>, results: PageTracker -> Residency, unback: (nat, nat, nat) -> bool)
      requires Valid() && NoDup(q1) && NoDup(q2) && SetOf(q1) == sampled && SetOf(q2) == chosen && NoneCollapsing(views)
      modifies this, lists.Values, views.Keys
      ensures Valid() && sampled == {} && chosen == {} && views.Keys == old(views).Keys
      ensures fullyFreed == old(fullyFreed) && parked == old(parked) && SetOf(order) == SetOf(old(order))
      ensures SameAllocs(old(views), views)
    {
      hide Valid, NoDup, NoneCollapsing, SameAllocs;
      RestoreSampled(q1);
      assert q2[0..] == q2;
      for k := 0 to |q2|
        invariant Valid() && sampled == {} && SetOf(q2[k..]) == chosen && views.Keys == old(views).Keys && NoneCollapsing(views)
        invariant fullyFreed == old(fullyFreed) && parked == old(parked) && SetOf(order) == SetOf(old(order))
        invariant SameAllocs(old(views), views)
      {
        RestOf(q2, k);
        ghost var v := views;
        RestoreOne(q2[k], results(q2[k]), (a: nat, b: nat) => unback(k, a, b));
        SameAllocsTrans(old(views), v, views);
      }
    }

    lemma AllKnownOk()
      requires Valid()
      ensures forall t :: t in views ==> Ok(views[t])
    {
      hide Kept, Boards, Tallied;
      forall t | t in views ensures Ok(views[t]) {
        KnownSane(order, fullyFreed, parked, views, board, mode, t);
      }
    }

    /** Every tracker counts when none is in between. */
    lemma SizeIs()
      requires Valid() && parked == {} && fullyFreed == []
      ensures size == |views| && FreeOf(Counters()) >= 0 && size * PAGES == Used() + FreeOf(Counters()) + unmapped
    {
      hide Placed, Idle, Sane, Boards;
      FreePages();
      TallySize(order, views, mode);
      SetOfCount(order);
      assert SetOf(fullyFreed) == {};
      assert SetOf(order) == views.Keys;
    }

    lemma Viewed(t: PageTracker)
      requires Valid() && t in views
      ensures t.Now() == views[t]
    {
      hide Kept, Boards, Tallied;
    }

    /** The large allocation that `pt` was the tail of is gone. */
    method SetAbandoned(pt: PageTracker)
      requires Valid() && pt in views
      modifies pt`flags, this`views
      ensures Valid() && views == old(views)[pt := Abandoned(old(views)[pt])]
    {
      hide Kept, Boards, Tally, Sane, Idle, Holds, AllIdle, Abandoned;
      ghost var s := Abandoned(views[pt]);
      AbandonedHolds(views, sampled, chosen, pt);
      KnownSane(order, fullyFreed, parked, views, board, mode, pt);
      AbandonedSane(views[pt]);
      KeptFlag(order, fullyFreed, parked, views, board, mode, pt, s);
      IdleStays(parked, views, pt, s);
      ViewOf(pt);
      pt.flags := pt.flags.(abandoned := true);
      views := views[pt := s];
    }
  }
}

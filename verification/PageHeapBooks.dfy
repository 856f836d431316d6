/** What the page heap knows about its live allocations and who has which hugepage. */
module PageHeapBooks {
  import opened Lists
  import opened HugePages
  import opened RangeTrackers
  import opened PageTrackers
  import opened FillerLists
  import opened FillerBooks
  import opened FillerKeep
  import opened FillerPick
  import opened FillerPut
  import opened FillerRelease
  import opened FillerTreat

  /** A live allocation of `n` pages from page `p` on: hugepages it has for itself, and
      possibly pages on a hugepage that is shared through a tracker. It is `donated` if
      the rest of that hugepage was given to the filler. */
  datatype Alloc = Alloc(p: nat, n: nat, donated: bool, excl: HugeRange, pt: PageTracker?, piece: Piece)

  ghost predicate Shape(a: Alloc) {
    if a.pt == null then
      a.excl.len > 0 && a.n == a.excl.len * PAGES && a.p == a.excl.start * PAGES && !a.donated
    else
      0 < a.piece.len < PAGES && a.piece.start + a.piece.len <= PAGES && a.n == a.excl.len * PAGES + a.piece.len &&
      (a.donated ==> a.piece.start == 0) &&
      if a.excl.len == 0 then a.p == a.pt.location * PAGES + a.piece.start
      else a.donated && a.p == a.excl.start * PAGES && a.pt.location == a.excl.End()
  }

  /** Every allocation on a tracker is there; a donation has not been given up. */
  ghost predicate LiveOk(live: seq<Alloc>, views: Views) {
    (forall k :: 0 <= k < |live| ==> Shape(live[k]) && Backing(live[k], views)) &&
    (forall j, k :: 0 <= j < k < |live| ==> Differ(live[j], live[k]))
  }

  ghost predicate Backing(a: Alloc, views: Views) {
    a.pt != null ==>
      a.pt in views && a.piece in views[a.pt].allocs &&
      (a.donated ==> views[a.pt].flags.wasDonated && !views[a.pt].flags.abandoned && views[a.pt].flags.abandonedCount == a.piece.len)
  }

  ghost predicate Differ(a: Alloc, b: Alloc) {
    a.pt != null && a.pt == b.pt ==> a.piece != b.piece && !(a.donated && b.donated)
  }

  /** The hugepages `user` has from the cache: some exclusive to an allocation, some with a
      tracker, and those in `loose` on their way. */
  ghost predicate Occupied(user: set<int>, live: seq<Alloc>, views: Views, loose: set<int>) {
    (forall k :: 0 <= k < |live| ==> Pages(live[k].excl) <= user && Pages(live[k].excl) !! loose) &&
    (forall t :: t in views ==> t.location in user && t.location !in loose) && loose <= user &&
    (forall k, t :: 0 <= k < |live| && t in views ==> t.location !in Pages(live[k].excl)) &&
    (forall j, k :: 0 <= j < k < |live| ==> Pages(live[j].excl) !! Pages(live[k].excl)) &&
    (forall s, t :: s in views && t in views && s != t ==> s.location != t.location) &&
    |user| == ExclSum(live) + |views| + |loose|
  }

  ghost function ExclSum(live: seq<Alloc>): nat {
    if live == [] then 0 else live[0].excl.len + ExclSum(live[1..])
  }

  ghost function PieceLen(a: Alloc): nat { if a.pt == null then 0 else a.piece.len }

  ghost function PieceSum(live: seq<Alloc>): nat {
    if live == [] then 0 else PieceLen(live[0]) + PieceSum(live[1..])
  }

  ghost function PageSum(live: seq<Alloc>): nat {
    if live == [] then 0 else live[0].n + PageSum(live[1..])
  }

  function Drop(live: seq<Alloc>, k: nat): seq<Alloc>
    requires k < |live|
  {
    live[..k] + live[k + 1..]
  }

  lemma {:induction false} SumsDrop(live: seq<Alloc>, k: nat)
    requires k < |live|
    ensures ExclSum(live) == ExclSum(Drop(live, k)) + live[k].excl.len
    ensures PieceSum(live) == PieceSum(Drop(live, k)) + PieceLen(live[k])
    ensures PageSum(live) == PageSum(Drop(live, k)) + live[k].n
    decreases live
  {
    if k > 0 {
      SumsDrop(live[1..], k - 1);
      assert Drop(live, k)[1..] == Drop(live[1..], k - 1);
    } else {
      assert Drop(live, k) == live[1..];
    }
  }

  /** An allocation is as long as its hugepages and its piece. */
  lemma {:induction false} PagesAddUp(live: seq<Alloc>)
    requires forall k :: 0 <= k < |live| ==> Shape(live[k])
    ensures PageSum(live) == ExclSum(live) * PAGES + PieceSum(live)
    decreases live
  {
    if live != [] { PagesAddUp(live[1..]); }
  }

  // ----- hugepages on the move -----

  lemma LooseIn(user: set<int>, live: seq<Alloc>, views: Views, loose: set<int>, s: set<int>)
    requires Occupied(user, live, views, loose) && user !! s
    ensures Occupied(user + s, live, views, loose + s)
  {
    assert loose !! s;
  }

  lemma LooseOut(user: set<int>, live: seq<Alloc>, views: Views, loose: set<int>, s: set<int>)
    requires Occupied(user, live, views, loose) && s <= loose
    ensures Occupied(user - s, live, views, loose - s)
  {
    assert user == (user - s) + s;
    assert loose == (loose - s) + s;
  }

  lemma LooseToTracker(user: set<int>, live: seq<Alloc>, views: Views, loose: set<int>, t: PageTracker, s: State)
    requires Occupied(user, live, views, loose) && t.location in loose && t !in views
    ensures Occupied(user, live, views[t := s], loose - {t.location})
  {
    assert views[t := s].Keys == views.Keys + {t};
    assert |views[t := s]| == |views| + 1;
  }

  lemma TrackerToLoose(user: set<int>, live: seq<Alloc>, views: Views, loose: set<int>, t: PageTracker)
    requires Occupied(user, live, views, loose) && t in views
    ensures Occupied(user, live, views - {t}, loose + {t.location})
  {
    assert (views - {t}).Keys == views.Keys - {t};
    assert |views - {t}| == |views| - 1;
  }

  lemma LooseToExcl(user: set<int>, live: seq<Alloc>, views: Views, loose: set<int>, a: Alloc)
    requires Occupied(user, live, views, loose) && Pages(a.excl) <= loose
    ensures Occupied(user, [a] + live, views, loose - Pages(a.excl))
  {
    var more := [a] + live;
    assert more[1..] == live;
    PagesCount(a.excl);
    assert loose == (loose - Pages(a.excl)) + Pages(a.excl);
    assert forall k :: 0 < k < |more| ==> more[k] == live[k - 1];
  }

  lemma ExclToLoose(user: set<int>, live: seq<Alloc>, views: Views, loose: set<int>, k: nat)
    requires Occupied(user, live, views, loose) && k < |live|
    ensures Occupied(user, Drop(live, k), views, loose + Pages(live[k].excl))
  {
    var rest := Drop(live, k);
    SumsDrop(live, k);
    PagesCount(live[k].excl);
    assert forall j :: 0 <= j < |rest| ==> rest[j] == live[if j < k then j else j + 1];
  }

  /** What trackers look like does not matter here. */
  lemma OccupiedFrame(user: set<int>, live: seq<Alloc>, views: Views, views': Views, loose: set<int>)
    requires Occupied(user, live, views, loose) && views'.Keys == views.Keys
    ensures Occupied(user, live, views', loose)
  {
    assert |views'| == |views'.Keys| && |views| == |views.Keys|;
  }

  // ----- allocations on trackers -----

  /** One more allocation, on a tracker that has room or is new. */
  lemma LiveAdd(live: seq<Alloc>, views: Views, views': Views, a: Alloc)
    requires LiveOk(live, views) && Shape(a) && Backing(a, views')
    requires a.pt != null ==> a.pt in views ==> a.piece !in views[a.pt].allocs && !a.donated
    requires forall k :: 0 <= k < |live| ==> Backing(live[k], views')
    ensures LiveOk([a] + live, views')
  {
    var more := [a] + live;
    assert forall k :: 0 < k < |more| ==> more[k] == live[k - 1];
    forall k | 0 < k < |more| ensures Differ(more[0], more[k]) {
      assert Backing(live[k - 1], views);
    }
  }

  lemma LiveDrop(live: seq<Alloc>, views: Views, k: nat)
    requires LiveOk(live, views) && k < |live|
    ensures LiveOk(Drop(live, k), views)
  {
    var rest := Drop(live, k);
    assert forall j :: 0 <= j < |rest| ==> rest[j] == live[if j < k then j else j + 1];
  }

  /** An allocation on `t` may come, the one that `k` had may go, and `t` may leave once it is empty. */
  lemma BackingServed(live: seq<Alloc>, views: Views, views': Views, t: PageTracker, n: nat, i: nat)
    requires LiveOk(live, views) && Served(views, views', t, n, i)
    ensures forall k :: 0 <= k < |live| ==> Backing(live[k], views')
  {
    forall k | 0 <= k < |live| ensures Backing(live[k], views') { assert Backing(live[k], views); }
  }

  lemma BackingNew(live: seq<Alloc>, views: Views, t: PageTracker, s: State)
    requires LiveOk(live, views) && t !in views
    ensures forall k :: 0 <= k < |live| ==> Backing(live[k], views[t := s])
  {
    forall k | 0 <= k < |live| ensures Backing(live[k], views[t := s]) { assert Backing(live[k], views); }
  }

  lemma LivePut(live: seq<Alloc>, views: Views, views': Views, k: nat)
    requires LiveOk(live, views) && k < |live| && live[k].pt != null
    requires live[k].pt in views && views'.Keys == views.Keys && PutState(views[live[k].pt], views'[live[k].pt], live[k].piece.len, live[k].piece.start)
    requires forall t :: t in views && t != live[k].pt ==> views'[t] == views[t]
    ensures LiveOk(Drop(live, k), views')
  {
    var rest := Drop(live, k);
    var t := live[k].pt;
    assert forall j :: 0 <= j < |rest| ==> rest[j] == live[if j < k then j else j + 1];
    forall j | 0 <= j < |rest| ensures Shape(rest[j]) && Backing(rest[j], views') {
      var m := if j < k then j else j + 1;
      assert Shape(live[m]) && Backing(live[m], views);
      assert m < k ==> Differ(live[m], live[k]);
      assert m > k ==> Differ(live[k], live[m]);
      assert live[m].pt == t ==> live[m].piece in views'[t].allocs;
    }
  }

  lemma LiveLeave(live: seq<Alloc>, views: Views, t: PageTracker)
    requires LiveOk(live, views) && t in views && views[t].allocs == {}
    ensures LiveOk(live, views - {t})
  {
    forall k | 0 <= k < |live| ensures Backing(live[k], views - {t}) { assert Backing(live[k], views); }
  }

  lemma LiveAbandon(live: seq<Alloc>, views: Views, t: PageTracker)
    requires LiveOk(live, views) && t in views && forall k :: 0 <= k < |live| && live[k].pt == t ==> !live[k].donated
    ensures LiveOk(live, views[t := Abandoned(views[t])])
  {
    var v := views[t := Abandoned(views[t])];
    forall k | 0 <= k < |live| ensures Backing(live[k], v) { assert Backing(live[k], views); }
  }

  /** After the originating allocation is gone nobody else counts as the donor. */
  lemma NoOtherDonor(live: seq<Alloc>, views: Views, k: nat)
    requires LiveOk(live, views) && k < |live| && live[k].pt != null && live[k].donated
    ensures forall j :: 0 <= j < |Drop(live, k)| && Drop(live, k)[j].pt == live[k].pt ==> !Drop(live, k)[j].donated
  {
    var rest := Drop(live, k);
    assert forall j :: 0 <= j < |rest| ==> rest[j] == live[if j < k then j else j + 1];
    forall j | 0 <= j < |rest| && rest[j].pt == live[k].pt ensures !rest[j].donated {
      var m := if j < k then j else j + 1;
      assert m < k ==> Differ(live[m], live[k]);
      assert m > k ==> Differ(live[k], live[m]);
    }
  }

  // ----- the page map of trackers -----

  ghost predicate TrackersOk(trackers: map<nat, PageTracker>, views: Views) {
    (forall p :: p in trackers ==> trackers[p] in views && trackers[p].location == p) &&
    (forall t :: t in views ==> t.location in trackers && trackers[t.location] == t)
  }

  lemma TrackersAdd(trackers: map<nat, PageTracker>, views: Views, t: PageTracker, s: State)
    requires TrackersOk(trackers, views) && t.location !in trackers
    ensures TrackersOk(trackers[t.location := t], views[t := s])
  {
  }

  lemma TrackersDrop(trackers: map<nat, PageTracker>, views: Views, t: PageTracker)
    requires TrackersOk(trackers, views) && t in views
    ensures TrackersOk(trackers - {t.location}, views - {t})
  {
  }

  lemma TrackersFrame(trackers: map<nat, PageTracker>, views: Views, views': Views)
    requires TrackersOk(trackers, views) && views'.Keys == views.Keys
    ensures TrackersOk(trackers, views')
  {
  }

  // ----- donated and abandoned hugepages -----

  ghost predicate RosterOk(roster: seq<PageTracker>, views: Views) {
    NoDup(roster) && SetOf(roster) == views.Keys
  }

  ghost function DonatedCount(roster: seq<PageTracker>, views: Views): nat
    requires forall t :: t in roster ==> t in views
  {
    if roster == [] then 0 else (if views[roster[0]].flags.wasDonated then 1 else 0) + DonatedCount(roster[1..], views)
  }

  ghost function AbandonedSum(roster: seq<PageTracker>, views: Views): nat
    requires forall t :: t in roster ==> t in views
  {
    if roster == [] then 0
    else (if views[roster[0]].flags.abandoned then views[roster[0]].flags.abandonedCount else 0) + AbandonedSum(roster[1..], views)
  }

  /** `donated` counts the live trackers that were donated, `abandoned` the pages of the abandoned ones. */
  ghost predicate Telemetry(roster: seq<PageTracker>, views: Views, donated: int, abandoned: int) {
    RosterOk(roster, views) && (forall t :: t in roster ==> t in views) &&
    donated == DonatedCount(roster, views) && abandoned == AbandonedSum(roster, views) &&
    forall t :: t in views && views[t].flags.abandoned ==> views[t].flags.wasDonated
  }

  ghost function Share(s: State): (nat, nat) {
    (if s.flags.wasDonated then 1 else 0, if s.flags.abandoned then s.flags.abandonedCount else 0)
  }

  lemma {:induction false} SumsFrame(roster: seq<PageTracker>, views: Views, views': Views)
    requires forall t :: t in roster ==> t in views && t in views' && Share(views'[t]) == Share(views[t])
    ensures DonatedCount(roster, views') == DonatedCount(roster, views) && AbandonedSum(roster, views') == AbandonedSum(roster, views)
    decreases roster
  {
    if roster != [] {
      SumsFrame(roster[1..], views, views');
      assert Share(views'[roster[0]]) == Share(views[roster[0]]);
    }
  }

  lemma {:induction false} SumsTake(roster: seq<PageTracker>, views: Views, t: PageTracker)
    requires (forall x :: x in roster ==> x in views) && t in roster && NoDup(roster)
    ensures forall x :: x in Without(roster, t) ==> x in views
    ensures DonatedCount(roster, views) == DonatedCount(Without(roster, t), views) + Share(views[t]).0
    ensures AbandonedSum(roster, views) == AbandonedSum(Without(roster, t), views) + Share(views[t]).1
    decreases roster
  {
    WithoutIn(roster, t);
    if roster[0] != t {
      assert NoDup(roster[1..]);
      SumsTake(roster[1..], views, t);
      var w := Without(roster, t);
      assert w == [roster[0]] + Without(roster[1..], t);
      assert w[1..] == Without(roster[1..], t);
    }
  }

  lemma TelemetryAdd(roster: seq<PageTracker>, views: Views, donated: int, abandoned: int, t: PageTracker, s: State)
    requires Telemetry(roster, views, donated, abandoned) && t !in views && !s.flags.abandoned
    ensures Telemetry([t] + roster, views[t := s], donated + Share(s).0, abandoned)
  {
    var views', more := views[t := s], [t] + roster;
    forall x | x in roster ensures x in views && x != t { assert x in SetOf(roster); }
    SumsFrame(roster, views, views');
    assert more[1..] == roster;
    assert t !in SetOf(roster);
    assert SetOf(more) == SetOf(roster) + {t};
  }

  lemma TelemetryDrop(roster: seq<PageTracker>, views: Views, donated: int, abandoned: int, t: PageTracker)
    requires Telemetry(roster, views, donated, abandoned) && t in views
    ensures Telemetry(Without(roster, t), views - {t}, donated - Share(views[t]).0, abandoned - Share(views[t]).1)
    ensures Share(views[t]).0 <= donated && Share(views[t]).1 <= abandoned
  {
    hide Share;
    var views', rest := views - {t}, Without(roster, t);
    assert t in SetOf(roster);
    SetOfWithout(roster, t);
    SumsTake(roster, views, t);
    forall x | x in rest ensures x in views && x != t { assert x in SetOf(rest); }
    SumsFrame(rest, views, views');
  }

  lemma TelemetryFrame(roster: seq<PageTracker>, views: Views, views': Views, donated: int, abandoned: int)
    requires Telemetry(roster, views, donated, abandoned) && views'.Keys == views.Keys
    requires forall t :: t in views ==> Share(views'[t]) == Share(views[t])
    requires forall t :: t in views' && views'[t].flags.abandoned ==> views'[t].flags.wasDonated
    ensures Telemetry(roster, views', donated, abandoned)
  {
    hide Share;
    forall x | x in roster ensures x in views { assert x in SetOf(roster); }
    SumsFrame(roster, views, views');
  }

  lemma TelemetryAbandon(roster: seq<PageTracker>, views: Views, donated: int, abandoned: int, t: PageTracker)
    requires Telemetry(roster, views, donated, abandoned) && t in views && views[t].flags.wasDonated && !views[t].flags.abandoned
    ensures Telemetry(roster, views[t := Abandoned(views[t])], donated, abandoned + views[t].flags.abandonedCount)
  {
    var views', rest := views[t := Abandoned(views[t])], Without(roster, t);
    assert t in SetOf(roster);
    WithoutIn(roster, t);
    SumsTake(roster, views, t);
    SumsTake(roster, views', t);
    forall x | x in rest ensures x in views && x != t { assert x in roster; }
    SumsFrame(rest, views, views');
  }

  // ----- everything together -----

  ghost predicate Ledger(user: set<int>, live: seq<Alloc>, views: Views, loose: set<int>, trackers: map<nat, PageTracker>,
                        roster: seq<PageTracker>, donated: int, abandoned: int, used: int) {
    LiveOk(live, views) && Occupied(user, live, views, loose) && TrackersOk(trackers, views) &&
    Telemetry(roster, views, donated, abandoned) && PieceSum(live) == used
  }

  lemma BooksServed(user: set<int>, live: seq<Alloc>, views: Views, loose: set<int>, trackers: map<nat, PageTracker>,
                    roster: seq<PageTracker>, donated: int, abandoned: int, used: int, views': Views, t: PageTracker, n: nat, i: nat)
    requires Ledger(user, live, views, loose, trackers, roster, donated, abandoned, used)
    requires Served(views, views', t, n, i) && t in views && Ok(views[t]) && n < PAGES
    ensures var a := Alloc(t.location * PAGES + i, n, false, NIL, t, Piece(i, n));
            Shape(a) && Ledger(user, [a] + live, views', loose, trackers, roster, donated, abandoned, used + n)
  {
    hide *;
    var a := Alloc(t.location * PAGES + i, n, false, NIL, t, Piece(i, n));
    BooksParts(user, live, views, loose, trackers, roster, donated, abandoned, used);
    ServedFacts(views, views', t, n, i, loose);
    BackingServed(live, views, views', t, n, i);
    LiveAdd(live, views, views', a);
    LooseToExcl(user, live, views, loose, a);
    OccupiedFrame(user, [a] + live, views, views', loose);
    TrackersFrame(trackers, views, views');
    ServedShare(views, views', roster, donated, abandoned, t, n, i);
    PieceMore(a, live);
    BooksWhole(user, [a] + live, views', loose, trackers, roster, donated, abandoned, used + n);
  }

  lemma PieceMore(a: Alloc, live: seq<Alloc>)
    ensures PieceSum([a] + live) == PieceLen(a) + PieceSum(live) && (a.pt != null ==> PieceLen(a) == a.piece.len)
  {
    assert ([a] + live)[1..] == live;
  }

  lemma BooksParts(user: set<int>, live: seq<Alloc>, views: Views, loose: set<int>, trackers: map<nat, PageTracker>,
                   roster: seq<PageTracker>, donated: int, abandoned: int, used: int)
    requires Ledger(user, live, views, loose, trackers, roster, donated, abandoned, used)
    ensures LiveOk(live, views) && Occupied(user, live, views, loose) && TrackersOk(trackers, views) &&
            Telemetry(roster, views, donated, abandoned) && PieceSum(live) == used
  {
  }

  lemma BooksWhole(user: set<int>, live: seq<Alloc>, views: Views, loose: set<int>, trackers: map<nat, PageTracker>,
                   roster: seq<PageTracker>, donated: int, abandoned: int, used: int)
    requires LiveOk(live, views) && Occupied(user, live, views, loose) && TrackersOk(trackers, views) &&
             Telemetry(roster, views, donated, abandoned) && PieceSum(live) == used
    ensures Ledger(user, live, views, loose, trackers, roster, donated, abandoned, used)
  {
  }

  lemma ServedFacts(views: Views, views': Views, t: PageTracker, n: nat, i: nat, loose: set<int>)
    requires Served(views, views', t, n, i) && t in views && Ok(views[t]) && n < PAGES
    ensures var a := Alloc(t.location * PAGES + i, n, false, NIL, t, Piece(i, n));
            Shape(a) && Backing(a, views') && a.piece !in views[t].allocs && Pages(a.excl) <= loose && loose - Pages(a.excl) == loose
    ensures views'.Keys == views.Keys
  {
    AllocatedAdd(views[t].allocs, views[t].free.used, i, n);
    assert Pages(NIL) == {};
  }

  lemma ServedShare(views: Views, views': Views, roster: seq<PageTracker>, donated: int, abandoned: int, t: PageTracker, n: nat, i: nat)
    requires Served(views, views', t, n, i) && Telemetry(roster, views, donated, abandoned)
    ensures Telemetry(roster, views', donated, abandoned)
  {
    TelemetryFrame(roster, views, views', donated, abandoned);
  }

  lemma BooksGet(user: set<int>, live: seq<Alloc>, views: Views, trackers: map<nat, PageTracker>,
                 roster: seq<PageTracker>, donated: int, abandoned: int, used: int, s: set<int>)
    requires Ledger(user, live, views, {}, trackers, roster, donated, abandoned, used) && user !! s
    ensures Ledger(user + s, live, views, s, trackers, roster, donated, abandoned, used)
  {
    hide Telemetry, TrackersOk, LiveOk;
    LooseIn(user, live, views, {}, s);
    assert {} + s == s;
  }

  /** A loose hugepage gets a tracker, which serves an allocation that may have further loose hugepages for itself. */
  lemma BooksJoin(user: set<int>, live: seq<Alloc>, views: Views, loose: set<int>, trackers: map<nat, PageTracker>,
                  roster: seq<PageTracker>, donated: int, abandoned: int, used: int, t: PageTracker, s: State, a: Alloc)
    requires Ledger(user, live, views, loose, trackers, roster, donated, abandoned, used) && t !in views && t.location in loose
    requires Shape(a) && a.pt == t && Pages(a.excl) <= loose - {t.location} && s.allocs == {a.piece} && !s.flags.abandoned
    requires a.donated ==> s.flags.wasDonated && s.flags.abandonedCount == a.piece.len
    ensures Ledger(user, [a] + live, views[t := s], loose - {t.location} - Pages(a.excl), trackers[t.location := t], [t] + roster,
                  donated + Share(s).0, abandoned, used + a.piece.len)
  {
    hide Telemetry, Share, TrackersOk, Occupied, LiveOk;
    BackingNew(live, views, t, s);
    LiveAdd(live, views, views[t := s], a);
    LooseToTracker(user, live, views, loose, t, s);
    LooseToExcl(user, live, views[t := s], loose - {t.location}, a);
    NotInMap(user, live, views, loose, trackers, t);
    TrackersAdd(trackers, views, t, s);
    TelemetryAdd(roster, views, donated, abandoned, t, s);
    assert ([a] + live)[1..] == live;
  }

  lemma NotInMap(user: set<int>, live: seq<Alloc>, views: Views, loose: set<int>, trackers: map<nat, PageTracker>, t: PageTracker)
    requires Occupied(user, live, views, loose) && TrackersOk(trackers, views) && t.location in loose
    ensures t.location !in trackers
  {
  }

  lemma BooksRaw(user: set<int>, live: seq<Alloc>, views: Views, loose: set<int>, trackers: map<nat, PageTracker>,
                 roster: seq<PageTracker>, donated: int, abandoned: int, used: int, a: Alloc)
    requires Ledger(user, live, views, loose, trackers, roster, donated, abandoned, used)
    requires Shape(a) && a.pt == null && Pages(a.excl) <= loose
    ensures Ledger(user, [a] + live, views, loose - Pages(a.excl), trackers, roster, donated, abandoned, used)
  {
    hide Telemetry, TrackersOk, Occupied;
    LiveAdd(live, views, views, a);
    LooseToExcl(user, live, views, loose, a);
    assert ([a] + live)[1..] == live;
  }

  /** An allocation goes: its piece is free again, its own hugepages are loose. */
  lemma BooksPut(user: set<int>, live: seq<Alloc>, views: Views, loose: set<int>, trackers: map<nat, PageTracker>,
                 roster: seq<PageTracker>, donated: int, abandoned: int, used: int, views': Views, k: nat)
    requires Ledger(user, live, views, loose, trackers, roster, donated, abandoned, used) && k < |live|
    requires if live[k].pt == null then views' == views else
               live[k].pt in views && views'.Keys == views.Keys &&
               PutState(views[live[k].pt], views'[live[k].pt], live[k].piece.len, live[k].piece.start) &&
               forall t :: t in views && t != live[k].pt ==> views'[t] == views[t]
    ensures Ledger(user, Drop(live, k), views', loose + Pages(live[k].excl), trackers, roster, donated, abandoned, used - PieceLen(live[k]))
  {
    hide Telemetry, Share, TrackersOk, Occupied, LiveOk, PutState;
    if live[k].pt == null {
      LiveDrop(live, views, k);
    } else {
      LivePut(live, views, views', k);
      PutShare(views, views', roster, donated, abandoned, live[k].pt, live[k].piece.len, live[k].piece.start);
    }
    ExclToLoose(user, live, views, loose, k);
    OccupiedFrame(user, Drop(live, k), views, views', loose + Pages(live[k].excl));
    TrackersFrame(trackers, views, views');
    SumsDrop(live, k);
  }

  lemma PutShare(views: Views, views': Views, roster: seq<PageTracker>, donated: int, abandoned: int, t: PageTracker, n: nat, i: nat)
    requires t in views && views'.Keys == views.Keys && PutState(views[t], views'[t], n, i) && Telemetry(roster, views, donated, abandoned)
    requires forall x :: x in views && x != t ==> views'[x] == views[x]
    ensures Telemetry(roster, views', donated, abandoned)
  {
    TelemetryFrame(roster, views, views', donated, abandoned);
  }

  /** A tracker without allocations goes; its hugepage is loose. */
  lemma BooksLeave(user: set<int>, live: seq<Alloc>, views: Views, loose: set<int>, trackers: map<nat, PageTracker>,
                   roster: seq<PageTracker>, donated: int, abandoned: int, used: int, t: PageTracker)
    requires Ledger(user, live, views, loose, trackers, roster, donated, abandoned, used) && t in views && views[t].allocs == {}
    ensures Ledger(user, live, views - {t}, loose + {t.location}, trackers - {t.location}, Without(roster, t),
                  donated - Share(views[t]).0, abandoned - Share(views[t]).1, used)
    ensures Share(views[t]).0 <= donated && Share(views[t]).1 <= abandoned && (views[t].flags.abandoned ==> views[t].flags.wasDonated)
  {
    hide Share, Occupied, LiveOk, RosterOk, TrackersOk;
    LiveLeave(live, views, t);
    TrackerToLoose(user, live, views, loose, t);
    TrackersDrop(trackers, views, t);
    TelemetryDrop(roster, views, donated, abandoned, t);
  }

  lemma BooksAbandon(user: set<int>, live: seq<Alloc>, views: Views, loose: set<int>, trackers: map<nat, PageTracker>,
                     roster: seq<PageTracker>, donated: int, abandoned: int, used: int, t: PageTracker)
    requires Ledger(user, live, views, loose, trackers, roster, donated, abandoned, used)
    requires t in views && views[t].flags.wasDonated && !views[t].flags.abandoned
    requires forall k :: 0 <= k < |live| && live[k].pt == t ==> !live[k].donated
    ensures Ledger(user, live, views[t := Abandoned(views[t])], loose, trackers, roster, donated, abandoned + views[t].flags.abandonedCount, used)
  {
    hide Telemetry, Share, TrackersOk, Occupied, LiveOk;
    LiveAbandon(live, views, t);
    OccupiedFrame(user, live, views, views[t := Abandoned(views[t])], loose);
    TrackersFrame(trackers, views, views[t := Abandoned(views[t])]);
    TelemetryAbandon(roster, views, donated, abandoned, t);
  }

  /** Pages were released; no allocation minds. */
  lemma BooksSubsided(user: set<int>, live: seq<Alloc>, views: Views, loose: set<int>, trackers: map<nat, PageTracker>,
                      roster: seq<PageTracker>, donated: int, abandoned: int, used: int, views': Views, mode: bool, success: bool)
    requires Ledger(user, live, views, loose, trackers, roster, donated, abandoned, used) && Subsided(views, views', mode, success)
    ensures Ledger(user, live, views', loose, trackers, roster, donated, abandoned, used) && views'.Keys == views.Keys
  {
    hide Telemetry, TrackersOk, Occupied, Shape, Differ;
    forall t | t in views
      ensures views'[t].allocs == views[t].allocs && views'[t].flags.(donated := false) == views[t].flags.(donated := false)
    {
      assert SubsidedOne(views[t], views'[t], mode, success);
    }
    forall k | 0 <= k < |live| ensures Backing(live[k], views') { assert Backing(live[k], views); }
    OccupiedFrame(user, live, views, views', loose);
    TrackersFrame(trackers, views, views');
    SubsidedShare(roster, views, views', donated, abandoned);
  }

  lemma SubsidedShare(roster: seq<PageTracker>, views: Views, views': Views, donated: int, abandoned: int)
    requires Telemetry(roster, views, donated, abandoned) && views'.Keys == views.Keys
    requires forall t :: t in views ==> views'[t].flags.(donated := false) == views[t].flags.(donated := false)
    ensures Telemetry(roster, views', donated, abandoned)
  {
    hide RosterOk;
    forall t | t in views ensures Share(views'[t]) == Share(views[t]) && (views'[t].flags.abandoned ==> views'[t].flags.wasDonated) {
      var f, g := views[t].flags.(donated := false), views'[t].flags.(donated := false);
      assert f.wasDonated == g.wasDonated && f.abandoned == g.abandoned && f.abandonedCount == g.abandonedCount;
    }
    TelemetryFrame(roster, views, views', donated, abandoned);
  }

  lemma BooksOut(user: set<int>, live: seq<Alloc>, views: Views, loose: set<int>, trackers: map<nat, PageTracker>,
                 roster: seq<PageTracker>, donated: int, abandoned: int, used: int, s: set<int>)
    requires Ledger(user, live, views, loose, trackers, roster, donated, abandoned, used) && s <= loose
    ensures Ledger(user - s, live, views, loose - s, trackers, roster, donated, abandoned, used) && s <= user
  {
    hide Telemetry, TrackersOk, LiveOk;
    LooseOut(user, live, views, loose, s);
  }

  lemma LedgerEmpty()
    ensures Ledger({}, [], map[], {}, map[], [], 0, 0, 0)
  {
  }

  /** The first page of an allocation tells where it is. */
  lemma WhereFrom(live: seq<Alloc>, views: Views, user: set<int>, loose: set<int>, trackers: map<nat, PageTracker>, k: nat)
    requires LiveOk(live, views) && Occupied(user, live, views, loose) && TrackersOk(trackers, views) && k < |live|
    ensures var a := live[k]; var hp := a.p / PAGES;
            if a.excl.len == 0 then a.pt != null && hp in trackers && trackers[hp] == a.pt && a.p % PAGES == a.piece.start && a.n == a.piece.len
            else hp !in trackers && hp == a.excl.start && a.n >= PAGES &&
                 HugeLengthFromPages(a.n) == a.excl.len + (if a.pt == null then 0 else 1) &&
                 (a.pt != null ==> a.donated && a.excl.End() in trackers && trackers[a.excl.End()] == a.pt && a.n == a.excl.len * PAGES + a.piece.len)
  {
    var a := live[k];
    assert Shape(a) && Backing(a, views);
    if a.excl.len == 0 {
      assert a.p / PAGES == a.pt.location && a.p % PAGES == a.piece.start;
    } else {
      assert a.p / PAGES == a.excl.start;
      assert a.excl.start in Pages(a.excl);
      assert a.n / PAGES == a.excl.len;
    }
  }

  lemma FlagsOk(s: State, f: Flags)
    requires Ok(s)
    ensures Ok(s.(flags := f))
  {
  }

  /** The first allocation on a new tracker starts at page 0. */
  lemma FirstPages(s: State, t: State, n: nat, i: nat, unbacked: nat, donated: bool, dense: bool)
    requires s == Fresh(donated).(flags := Fresh(donated).flags.(abandonedCount := s.flags.abandonedCount))
    requires Got(s, t, n, i, unbacked) && Ok(t) && (i > 0 ==> i - 1 in s.free.used) && n < PAGES && (dense ==> n == 1 && !donated)
    ensures Contributable(t, donated, dense) && t.allocs == {Piece(0, n)} && t.free.nused == n && t.flags == s.flags
  {
    LongestExtremes(t.free);
    RunCount(0, PAGES);
  }

  lemma JoinShape(a: Alloc, s: State, donated: bool, dense: bool)
    requires a.pt != null && a.donated == donated && 0 < a.piece.len < PAGES && a.piece.start == 0 && a.n == a.excl.len * PAGES + a.piece.len
    requires if a.excl.len == 0 then a.p == a.pt.location * PAGES else donated && a.p == a.excl.start * PAGES && a.pt.location == a.excl.End()
    requires s.flags.wasDonated == donated && !s.flags.abandoned
    ensures Shape(a)
    ensures var t := Contributed(s, donated, dense);
            t.allocs == s.allocs && !t.flags.abandoned && t.flags.wasDonated == donated && t.flags.abandonedCount == s.flags.abandonedCount &&
            Share(t).0 == (if donated then 1 else 0)
  {
  }

  /** A tracker with nothing else in use has no other allocation. */
  lemma LastAlloc(s: State, t: State, n: nat, i: nat)
    requires Ok(s) && PutState(s, t, n, i) && Run(i, n) == s.free.used
    ensures t.allocs == {}
  {
    forall b | b in s.allocs ensures b == Piece(i, n) {
      assert b.len > 0 && b.start in Run(b.start, b.len);
    }
  }

  lemma SharesOf(s: State, t: State, n: nat, i: nat)
    requires PutState(s, t, n, i)
    ensures t.flags.wasDonated == s.flags.wasDonated && t.flags.abandoned == s.flags.abandoned && t.flags.abandonedCount == s.flags.abandonedCount
    ensures t.released == s.released && t.releasedCount == s.releasedCount
  {
  }

  lemma NotTracked(user: set<int>, live: seq<Alloc>, views: Views, loose: set<int>, trackers: map<nat, PageTracker>, p: nat)
    requires Occupied(user, live, views, loose) && TrackersOk(trackers, views) && p in loose
    ensures p !in trackers && trackers - {p} == trackers
  {
  }
}

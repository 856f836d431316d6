/** The pages of one hugepage: which are in use, which of the free ones have been
    returned to the system (class PageTracker, tcmalloc/huge_page_filler.h). */
module PageTrackers {
  import opened HugePages
  import opened Lists
  import opened RangeTrackers

  /** The flags of a tracker: it serves densely accessed spans; it was given as the tail
      of a large allocation, and not used since; it is left over from a large allocation
      that is gone, with how many pages; it is not to be freed because of a treatment
      under way; it is being collapsed. */
  datatype Flags = Flags(
    dense: bool, wasDonated: bool, donated: bool, abandoned: bool, abandonedCount: nat,
    sampleHold: bool, collapseHold: bool, collapsing: bool)
  {
    predicate Held() { sampleHold || collapseHold }
  }

  /** What the fields of a tracker hold. */
  datatype State = State(
    free: RangeTracker, allocs: set<Piece>, released: set<nat>, releasedCount: nat, unbroken: bool, flags: Flags)
  {
    /** Free pages, backed or not. */
    function FreePages(): int { PAGES - free.nused }

    /** Free pages that are still backed. */
    ghost function Backed(): set<nat> { Run(0, PAGES) - free.used - released }
  }

  /** The live allocations are disjoint and make up the pages in use. */
  ghost predicate Allocated(allocs: set<Piece>, used: set<nat>) {
    (forall a :: a in allocs ==> a.len > 0 && a.start + a.len <= PAGES && Run(a.start, a.len) <= used) &&
    (forall a, b :: a in allocs && b in allocs && a != b ==> Run(a.start, a.len) !! Run(b.start, b.len)) &&
    (forall p :: p in used ==> exists a :: a in allocs && InRun(p, a.start, a.len))
  }

  /** Released pages are free pages, and the counts are right. */
  ghost predicate Ok(s: State) {
    s.free.Valid() && s.free.nallocs == |s.allocs| && Allocated(s.allocs, s.free.used) &&
    s.released <= Run(0, PAGES) && s.released !! s.free.used && s.releasedCount == |s.released|
  }

  lemma EmptyTracker(s: State)
    requires Ok(s)
    ensures s.free.nallocs == 0 <==> s.free.used == {}
  {
    if s.free.nallocs == 0 {
      assert s.allocs == {};
      assert forall p :: p in s.free.used ==> exists a :: a in s.allocs && InRun(p, a.start, a.len);
    } else {
      var a :| a in s.allocs;
      assert a.start in Run(a.start, a.len);
    }
  }

  lemma BackedCount(s: State)
    requires Ok(s)
    ensures s.FreePages() - s.releasedCount == |s.Backed()| && s.releasedCount <= s.FreePages()
  {
    RunCount(0, PAGES);
    SubsetCount(s.free.used, Run(0, PAGES));
    SubsetCount(s.released, Run(0, PAGES) - s.free.used);
  }

  lemma AllocatedAdd(allocs: set<Piece>, used: set<nat>, i: nat, n: nat)
    requires Allocated(allocs, used) && n > 0 && FreeRun(used, i, n)
    ensures Allocated(allocs + {Piece(i, n)}, used + Run(i, n)) && Piece(i, n) !in allocs
  {
    assert i in Run(i, n);
    var more := allocs + {Piece(i, n)};
    forall p | p in used + Run(i, n) ensures exists a :: a in more && InRun(p, a.start, a.len) {
      if p in used {
        var a :| a in allocs && InRun(p, a.start, a.len);
        assert a in more;
      } else {
        assert Piece(i, n) in more;
      }
    }
  }

  lemma AllocatedDrop(allocs: set<Piece>, used: set<nat>, c: Piece)
    requires Allocated(allocs, used) && c in allocs
    ensures Allocated(allocs - {c}, used - Run(c.start, c.len))
  {
    var rest := allocs - {c};
    forall p | p in used - Run(c.start, c.len) ensures exists a :: a in rest && InRun(p, a.start, a.len) {
      var a :| a in allocs && InRun(p, a.start, a.len);
      assert a in rest;
    }
  }

  // ----- what the operations do to a tracker -----

  /** `n` pages at `i` were allocated; `unbacked` of them had been released. */
  ghost predicate Got(s: State, t: State, n: nat, i: nat, unbacked: nat) {
    n > 0 && FreeRun(s.free.used, i, n) && unbacked == |s.released * Run(i, n)| <= s.releasedCount &&
    t == s.(free := t.free, allocs := s.allocs + {Piece(i, n)}, released := s.released - Run(i, n),
            releasedCount := s.releasedCount - unbacked) &&
    t.free.used == s.free.used + Run(i, n) && t.free.nused == s.free.nused + n && t.free.nallocs == s.free.nallocs + 1
  }

  /** The allocation of `n` pages at `i` was given back. */
  ghost predicate PutBack(s: State, t: State, n: nat, i: nat) {
    Piece(i, n) in s.allocs && n <= s.free.nused && s.free.nallocs > 0 &&
    t == s.(free := t.free, allocs := s.allocs - {Piece(i, n)}) &&
    t.free.used == s.free.used - Run(i, n) && t.free.nused == s.free.nused - n && t.free.nallocs == s.free.nallocs - 1
  }

  /** The pages `done`, free and backed so far, were released. */
  ghost predicate Released(s: State, t: State, done: set<nat>, unbroken: bool) {
    done <= s.Backed() &&
    t == s.(released := s.released + done, releasedCount := s.releasedCount + |done|, unbroken := unbroken)
  }

  lemma GotOk(s: State, t: State, n: nat, i: nat, unbacked: nat)
    requires Ok(s) && Got(s, t, n, i, unbacked) && t.free.Valid()
    ensures Ok(t)
  {
    hide Allocated, FreeRun, RangeTracker.Valid;
    AllocatedAdd(s.allocs, s.free.used, i, n);
    CutCount(s.released, Run(i, n));
  }

  lemma CutCount(a: set<nat>, b: set<nat>)
    ensures |a - b| == |a| - |a * b|
  {
    SubsetCount(a * b, a);
    assert a - b == a - (a * b);
  }

  lemma PutBackOk(s: State, t: State, n: nat, i: nat)
    requires Ok(s) && PutBack(s, t, n, i) && t.free.Valid()
    ensures Ok(t)
  {
    AllocatedDrop(s.allocs, s.free.used, Piece(i, n));
  }

  lemma ReleasedOk(s: State, t: State, done: set<nat>, unbroken: bool)
    requires Ok(s) && Released(s, t, done, unbroken)
    ensures Ok(t)
  {
  }

  // ----- scanning for pages to release -----

  /** The pages of a sequence of ranges. */
  ghost function PagesOf(q: seq<Piece>): set<nat> {
    if q == [] then {} else PagesOf(q[..|q| - 1]) + Run(q[|q| - 1].start, q[|q| - 1].len)
  }

  /** The pages of those ranges whose unback succeeds. */
  ghost function Unbacked(q: seq<Piece>, unback: (nat, nat) -> bool): set<nat> {
    if q == [] then {}
    else Unbacked(q[..|q| - 1], unback) +
         (if unback(q[|q| - 1].start, q[|q| - 1].len) then Run(q[|q| - 1].start, q[|q| - 1].len) else {})
  }

  /** One range after the other, none twice. */
  ghost predicate InTurn(q: seq<Piece>, end: nat) {
    (forall i :: 0 <= i < |q| ==> q[i].len > 0 && q[i].start + q[i].len <= end) &&
    (forall i, j :: 0 <= i < j < |q| ==> q[i].start + q[i].len <= q[j].start)
  }

  /** The scan stands at `index`: every free and backed page below has been asked for. */
  ghost predicate Scanning(s: State, released: set<nat>, index: nat, count: nat, q: seq<Piece>, unback: (nat, nat) -> bool) {
    index <= PAGES && InTurn(q, index) && PagesOf(q) == s.Backed() * Run(0, index) &&
    released == s.released + Unbacked(q, unback) && count == |Unbacked(q, unback)| && Unbacked(q, unback) <= PagesOf(q)
  }

  lemma ScanningAsk(s: State, released: set<nat>, index: nat, count: nat, q: seq<Piece>, unback: (nat, nat) -> bool, p: Piece)
    requires Ok(s) && Scanning(s, released, index, count, q, unback)
    requires index <= p.start && p.len > 0 && p.start + p.len <= PAGES && Run(p.start, p.len) <= s.Backed()
    requires forall x :: index <= x < p.start ==> x !in s.Backed()
    ensures var ok := unback(p.start, p.len);
            Scanning(s, if ok then released + Run(p.start, p.len) else released, p.start + p.len,
                     if ok then count + p.len else count, q + [p], unback)
  {
    hide Ok, State.Backed, PagesOf, Unbacked, InTurn, Run;
    RunCount(p.start, p.len);
    BackedNext(s.Backed(), index, p);
    AppendPages(q, p, unback);
    InTurnAdd(q, index, p);
    AskCount(released, s.released, Unbacked(q, unback), PagesOf(q), Run(p.start, p.len));
  }

  lemma AppendPages(q: seq<Piece>, p: Piece, unback: (nat, nat) -> bool)
    ensures PagesOf(q + [p]) == PagesOf(q) + Run(p.start, p.len)
    ensures Unbacked(q + [p], unback) == if unback(p.start, p.len) then Unbacked(q, unback) + Run(p.start, p.len) else Unbacked(q, unback)
  {
    var more := q + [p];
    assert more[..|more| - 1] == q;
  }

  lemma InTurnAdd(q: seq<Piece>, end: nat, p: Piece)
    requires InTurn(q, end) && end <= p.start && p.len > 0
    ensures InTurn(q + [p], p.start + p.len)
  {
  }

  lemma AskCount(released: set<nat>, released0: set<nat>, done: set<nat>, pages: set<nat>, r: set<nat>)
    requires released == released0 + done && done <= pages && pages !! r
    ensures released + r == released0 + (done + r) && |done + r| == |done| + |r| && done + r <= pages + r && done <= pages + r
  {
  }

  /** The backed pages below the end of `p` are those below `index` and those of `p`. */
  lemma BackedNext(backed: set<nat>, index: nat, p: Piece)
    requires index <= p.start && Run(p.start, p.len) <= backed && forall x :: index <= x < p.start ==> x !in backed
    ensures backed * Run(0, p.start + p.len) == backed * Run(0, index) + Run(p.start, p.len)
    ensures backed * Run(0, index) !! Run(p.start, p.len)
  {
  }

  lemma ScanningSkip(s: State, released: set<nat>, index: nat, count: nat, q: seq<Piece>, unback: (nat, nat) -> bool, to: nat)
    requires Scanning(s, released, index, count, q, unback) && index <= to <= PAGES
    requires forall x :: index <= x < to ==> x !in s.Backed()
    ensures Scanning(s, released, to, count, q, unback)
  {
    assert s.Backed() * Run(0, to) == s.Backed() * Run(0, index);
  }

  /** Above the scan nothing has changed. */
  lemma ScanningAhead(s: State, released: set<nat>, index: nat, count: nat, q: seq<Piece>, unback: (nat, nat) -> bool, x: nat)
    requires Scanning(s, released, index, count, q, unback) && index <= x < PAGES
    ensures x in s.Backed() <==> x !in released && x !in s.free.used
  {
  }

  lemma ScanningStart(s: State, unback: (nat, nat) -> bool)
    ensures Scanning(s, s.released, 0, 0, [], unback)
  {
    assert s.Backed() * Run(0, 0) == {};
    assert s.released + {} == s.released;
  }

  lemma ScanningDone(s: State, released: set<nat>, count: nat, q: seq<Piece>, unback: (nat, nat) -> bool)
    requires Scanning(s, released, PAGES, count, q, unback)
    ensures PagesOf(q) == s.Backed()
  {
    assert s.Backed() * Run(0, PAGES) == s.Backed();
  }

  class PageTracker {
    const location: nat
    var free: RangeTracker
    var released: set<nat>
    var releasedCount: nat
    var unbroken: bool
    var flags: Flags

    ghost var allocs: set<Piece>

    ghost function Now(): State
      reads this
    {
      State(free, allocs, released, releasedCount, unbroken, flags)
    }

    lemma Fields()
      ensures Now() == State(free, allocs, released, releasedCount, unbroken, flags)
    {
    }

    constructor (p: nat, wasDonated: bool)
      ensures location == p && Now() == Fresh(wasDonated) && Ok(Now())
    {
      location := p;
      free, released, releasedCount, unbroken, allocs := CLEAR, {}, 0, true, {};
      flags := FreshFlags(wasDonated);
      ClearValid();
    }

    /** Allocate `n` pages. */
    method Get(n: nat) returns (i: nat, unbacked: nat)
      requires Ok(Now()) && 0 < n <= free.longest
      modifies this`free, this`released, this`releasedCount, this`allocs
      ensures Ok(Now()) && Got(old(Now()), Now(), n, i, unbacked) && (i > 0 ==> i - 1 in old(free).used)
    {
      hide *;
      Fields();
      ghost var s := Now();
      OkParts(s);
      var marked;
      marked, i := FindAndMark(free, n);
      ghost var t := GotState(s, marked, n, i);
      free := marked;
      unbacked := 0;
      if releasedCount > 0 {
        unbacked := |released * Run(i, n)|;
        released := released - Run(i, n);
        releasedCount := releasedCount - unbacked;
      }
      allocs := allocs + {Piece(i, n)};
      Fields();
    }

    /** Give back the allocation of `n` pages at `i`. */
    method Put(i: nat, n: nat)
      requires Ok(Now()) && Piece(i, n) in allocs
      modifies this`free, this`allocs
      ensures Ok(Now()) && PutBack(old(Now()), Now(), n, i)
    {
      hide Ok;
      ghost var s := Now();
      OkParts(s);
      PutCounts(s, n, i);
      free := Unmark(free, i, n);
      allocs := allocs - {Piece(i, n)};
      PutBackOk(s, Now(), n, i);
    }

    /** Return every free and backed page to the system, in ranges. `asked` are the ranges,
        in order; `unback` says how each attempt goes. */
    method ReleaseFree(unback: (nat, nat) -> bool) returns (count: nat, ghost asked: seq<Piece>)
      requires Ok(Now())
      modifies this`released, this`releasedCount, this`unbroken
      ensures Ok(Now()) && InTurn(asked, PAGES) && PagesOf(asked) == old(Now()).Backed()
      ensures Released(old(Now()), Now(), Unbacked(asked, unback), count == 0 && old(unbroken)) && count == |Unbacked(asked, unback)|
    {
      hide *;
      Fields();
      ghost var s := Now();
      count, asked := 0, [];
      var index: nat := 0;
      ScanningStart(s, unback);
      while NextClear(released, index) < PAGES
        invariant index <= PAGES && Scanning(s, released, index, count, asked, unback)
        invariant Now() == s.(released := released, unbroken := count == 0 && s.unbroken)
        decreases PAGES - index
      {
        index, count, asked := ReleaseTurn(s, index, count, asked, unback);
      }
      NothingBacked(s, released, index, count, asked, unback);
      ScanningReleased(s, released, count, asked, unback);
      Fields();
      releasedCount := releasedCount + count;
      ReleasedOk(s, s.(released := released, releasedCount := s.releasedCount + count, unbroken := count == 0 && s.unbroken),
                 Unbacked(asked, unback), count == 0 && s.unbroken);
      Fields();
    }

    /** One turn of the scan. */
    method ReleaseTurn(ghost s: State, at: nat, k: nat, ghost q: seq<Piece>, unback: (nat, nat) -> bool)
      returns (index: nat, count: nat, ghost asked: seq<Piece>)
      requires Ok(s) && at <= PAGES && NextClear(released, at) < PAGES && Scanning(s, released, at, k, q, unback)
      requires Now() == s.(released := released, unbroken := k == 0 && s.unbroken)
      modifies this`released, this`unbroken
      ensures at < index <= PAGES && Scanning(s, released, index, count, asked, unback)
      ensures Now() == s.(released := released, unbroken := count == 0 && s.unbroken)
    {
      hide *;
      Fields();
      count, asked := k, q;
      index := NextClear(released, at);
      var n := RunAt(released, index);
      var freeIndex := NextClear(free.used, index);
      var freeN := RunAt(free.used, freeIndex);
      if freeIndex < PAGES && freeIndex < index + n {
        var end := if freeIndex + freeN <= index + n then freeIndex + freeN else index + n;
        var length := end - freeIndex;
        TurnAsk(s, released, at, count, asked, unback, index, n, freeIndex, freeN, length);
        asked := asked + [Piece(freeIndex, length)];
        if unback(freeIndex, length) {
          unbroken := false;
          released := released + Run(freeIndex, length);
          count := count + length;
        }
        index := end;
      } else {
        TurnSkip(s, released, at, count, asked, unback, index, n, freeIndex);
        index := index + n;
      }
      Fields();
    }

    /** Mark the free pages found unbacked as released; the hugepage is broken in any case. */
    method MarkSubreleased(unbacked: set<nat>) returns (count: nat)
      requires Ok(Now())
      modifies this`released, this`releasedCount, this`unbroken
      ensures Ok(Now()) && Released(old(Now()), Now(), old(Now()).Backed() * unbacked, false)
      ensures count == |old(Now()).Backed() * unbacked|
    {
      hide *;
      Fields();
      var found := (Run(0, PAGES) - free.used - released) * unbacked;
      ghost var t := MarkedState(Now(), unbacked, found);
      count := |found|;
      released := released + found;
      releasedCount := releasedCount + count;
      unbroken := false;
      Fields();
    }
  }

  function FreshFlags(wasDonated: bool): Flags {
    Flags(false, wasDonated, false, false, 0, false, false, false)
  }

  ghost function Fresh(wasDonated: bool): State {
    State(CLEAR, {}, {}, 0, true, FreshFlags(wasDonated))
  }

  lemma MarkedState(s: State, unbacked: set<nat>, found: set<nat>) returns (t: State)
    requires Ok(s) && found == (Run(0, PAGES) - s.free.used - s.released) * unbacked
    ensures found == s.Backed() * unbacked && Released(s, t, found, false) && Ok(t)
    ensures t == s.(released := s.released + found, releasedCount := s.releasedCount + |found|, unbroken := false)
  {
    t := s.(released := s.released + found, releasedCount := s.releasedCount + |found|, unbroken := false);
    ReleasedOk(s, t, found, false);
  }

  lemma OkParts(s: State)
    requires Ok(s)
    ensures s.free.Valid() && s.releasedCount == |s.released|
  {
  }

  /** What `Get` leaves behind; nothing is subtracted when nothing is released. */
  lemma GotState(s: State, marked: RangeTracker, n: nat, i: nat) returns (t: State)
    requires Ok(s) && marked.Valid() && n > 0 && FreeRun(s.free.used, i, n)
    requires marked.used == s.free.used + Run(i, n) && marked.nallocs == s.free.nallocs + 1
    ensures |s.released * Run(i, n)| <= s.releasedCount
    ensures s.releasedCount == 0 ==> s.released - Run(i, n) == s.released && |s.released * Run(i, n)| == 0
    ensures t == s.(free := marked, allocs := s.allocs + {Piece(i, n)}, released := s.released - Run(i, n),
                    releasedCount := s.releasedCount - |s.released * Run(i, n)|)
    ensures Ok(t) && Got(s, t, n, i, |s.released * Run(i, n)|)
  {
    hide Run, Allocated;
    SubsetCount(s.released * Run(i, n), s.released);
    RunCount(i, n);
    assert s.releasedCount == 0 ==> s.released == {};
    t := s.(free := marked, allocs := s.allocs + {Piece(i, n)}, released := s.released - Run(i, n),
            releasedCount := s.releasedCount - |s.released * Run(i, n)|);
    GotOk(s, t, n, i, |s.released * Run(i, n)|);
  }

  lemma PutCounts(s: State, n: nat, i: nat)
    requires Ok(s) && Piece(i, n) in s.allocs
    ensures n > 0 && i + n <= PAGES && Run(i, n) <= s.free.used && s.free.nallocs > 0 && n <= s.free.nused
    ensures |s.free.used - Run(i, n)| == s.free.nused - n
  {
    RunCount(i, n);
    SubsetCount(Run(i, n), s.free.used);
  }

  lemma ScanningReleased(s: State, released: set<nat>, count: nat, q: seq<Piece>, unback: (nat, nat) -> bool)
    requires Scanning(s, released, PAGES, count, q, unback)
    ensures PagesOf(q) == s.Backed() && InTurn(q, PAGES) && Unbacked(q, unback) <= s.Backed()
    ensures released == s.released + Unbacked(q, unback) && count == |Unbacked(q, unback)|
    ensures Released(s, s.(released := released, releasedCount := s.releasedCount + count, unbroken := count == 0 && s.unbroken),
                     Unbacked(q, unback), count == 0 && s.unbroken)
  {
    ScanningDone(s, released, count, q, unback);
  }

  lemma NothingBacked(s: State, released: set<nat>, index: nat, count: nat, q: seq<Piece>, unback: (nat, nat) -> bool)
    requires Scanning(s, released, index, count, q, unback) && index <= PAGES && NextClear(released, index) == PAGES
    ensures Scanning(s, released, PAGES, count, q, unback)
  {
    forall x | index <= x < PAGES ensures x !in s.Backed() {
      ScanningAhead(s, released, index, count, q, unback, x);
    }
    ScanningSkip(s, released, index, count, q, unback, PAGES);
  }

  lemma TurnAsk(s: State, released: set<nat>, at: nat, count: nat, q: seq<Piece>, unback: (nat, nat) -> bool,
                index: nat, n: nat, freeIndex: nat, freeN: nat, length: nat)
    requires Ok(s) && Scanning(s, released, at, count, q, unback) && at <= PAGES
    requires index == NextClear(released, at) < PAGES && n == RunAt(released, index)
    requires freeIndex == NextClear(s.free.used, index) < PAGES && freeN == RunAt(s.free.used, freeIndex) && freeIndex < index + n
    requires length == (if freeIndex + freeN <= index + n then freeIndex + freeN else index + n) - freeIndex
    ensures length > 0 && freeIndex + length <= PAGES
    ensures var ok := unback(freeIndex, length);
            Scanning(s, if ok then released + Run(freeIndex, length) else released, freeIndex + length,
                     if ok then count + length else count, q + [Piece(freeIndex, length)], unback)
  {
    hide *;
    TurnBacked(s, released, at, count, q, unback, index, n, freeIndex, freeN, length);
    ScanningAsk(s, released, at, count, q, unback, Piece(freeIndex, length));
  }

  /** What there is to ask for next. */
  lemma TurnBacked(s: State, released: set<nat>, at: nat, count: nat, q: seq<Piece>, unback: (nat, nat) -> bool,
                   index: nat, n: nat, freeIndex: nat, freeN: nat, length: nat)
    requires Ok(s) && Scanning(s, released, at, count, q, unback) && at <= PAGES
    requires index == NextClear(released, at) < PAGES && n == RunAt(released, index)
    requires freeIndex == NextClear(s.free.used, index) < PAGES && freeN == RunAt(s.free.used, freeIndex) && freeIndex < index + n
    requires length == (if freeIndex + freeN <= index + n then freeIndex + freeN else index + n) - freeIndex
    ensures at <= freeIndex && length > 0 && freeIndex + length <= PAGES && Run(freeIndex, length) <= s.Backed()
    ensures forall x :: at <= x < freeIndex ==> x !in s.Backed()
  {
    hide Scanning, Ok;
    forall x | at <= x < freeIndex ensures x !in s.Backed() {
      ScanningAhead(s, released, at, count, q, unback, x);
    }
    forall x | x in Run(freeIndex, length) ensures x in s.Backed() {
      ScanningAhead(s, released, at, count, q, unback, x);
      assert x in Run(index, n) && x in Run(freeIndex, freeN);
    }
  }

  lemma TurnSkip(s: State, released: set<nat>, at: nat, count: nat, q: seq<Piece>, unback: (nat, nat) -> bool,
                 index: nat, n: nat, freeIndex: nat)
    requires Ok(s) && Scanning(s, released, at, count, q, unback) && at <= PAGES
    requires index == NextClear(released, at) < PAGES && n == RunAt(released, index)
    requires freeIndex == NextClear(s.free.used, index) && (freeIndex == PAGES || freeIndex >= index + n)
    ensures n > 0 && index + n <= PAGES && Scanning(s, released, index + n, count, q, unback)
  {
    hide Scanning, Ok;
    forall x | at <= x < index + n ensures x !in s.Backed() {
      ScanningAhead(s, released, at, count, q, unback, x);
    }
    ScanningSkip(s, released, at, count, q, unback, index + n);
  }
}

/** Choosing trackers to release from, and how much there is to release. */
module FillerRelease {
  import opened Lists
  import opened RangeTrackers
  import opened PageTrackers
  import opened FillerLists
  import opened FillerBooks
  import opened FillerKeep
  import opened FillerPick
  import opened FillerPut

  /** How many candidates are gathered at a time. */
  const CANDIDATES: nat := PAGES

  /** Fewer pages in use are released first; among equals, trackers of sparse spans. */
  function Key(s: State): nat { 2 * s.free.nused + (if s.flags.dense then 1 else 0) }

  function Before(usedA: nat, denseA: bool, usedB: nat, denseB: bool): bool {
    if usedA < usedB then true else if usedA > usedB then false else if denseA then false else denseB
  }

  /** The comparison of the source is the one by key. */
  lemma BeforeIsKey(s: State, t: State)
    ensures Before(s.free.nused, s.flags.dense, t.free.nused, t.flags.dense) <==> Key(s) < Key(t)
  {
  }

  /** There is something to release, and nothing against it. */
  ghost predicate Releasable(s: State) {
    Sane(s) && s.FreePages() > s.releasedCount && !s.flags.collapsing
  }

  /** The lists from which candidates come. */
  function Start(f: Family): nat { if f.Donated? then 0 else CHUNKS }

  /** On the lists that are looked at every tracker has free pages that are backed; on
      those that are skipped none has a free page. */
  lemma SkipFull(s: State, mode: bool)
    requires InUse(s) && !FamilyOf(s, mode).AllReleased?
    ensures 0 < s.free.nallocs <= PAGES
    ensures IndexOf(s) >= Start(FamilyOf(s, mode)) <==> s.FreePages() > s.releasedCount
    ensures IndexOf(s) < Start(FamilyOf(s, mode)) <==> s.FreePages() == 0
  {
    InUseBounds(s);
    LongestExtremes(s.free);
    RunCount(0, PAGES);
    SubsetCount(s.free.used, Run(0, PAGES));
    assert s.free.used == Run(0, PAGES) <==> s.free.nused == PAGES by {
      if s.free.nused == PAGES { assert |Run(0, PAGES) - s.free.used| == 0; }
    }
  }

  /** `cands` are the best of `seen`, as many as there is room for. */
  ghost predicate Chosen(cands: seq<PageTracker>, seen: set<PageTracker>, views: Views) {
    NoDup(cands) && |cands| <= CANDIDATES && SetOf(cands) <= seen <= views.Keys &&
    forall x, y :: x in seen && x !in cands && y in cands ==> |cands| == CANDIDATES && Key(views[y]) <= Key(views[x])
  }

  ghost predicate NoneLost(cands: seq<PageTracker>, seen: set<PageTracker>) {
    |cands| < CANDIDATES ==> seen == SetOf(cands)
  }

  ghost predicate AllReleasable(seen: set<PageTracker>, order: seq<PageTracker>, views: Views) {
    forall t :: t in seen ==> t in order && t in views && Releasable(views[t])
  }

  lemma PushRoom(cands: seq<PageTracker>, seen: set<PageTracker>, views: Views, t: PageTracker)
    requires Chosen(cands, seen, views) && NoneLost(cands, seen) && t in views && t !in seen && |cands| < CANDIDATES
    ensures Chosen(cands + [t], seen + {t}, views) && NoneLost(cands + [t], seen + {t})
  {
    assert t !in SetOf(cands);
    assert SetOf(cands + [t]) == SetOf(cands) + {t};
  }

  /** `w` is a worst candidate. */
  ghost predicate Worst(cands: seq<PageTracker>, views: Views, w: nat) {
    w < |cands| && forall j :: 0 <= j < |cands| ==> cands[j] in views && cands[w] in views && Key(views[cands[j]]) <= Key(views[cands[w]])
  }

  lemma PushWorse(cands: seq<PageTracker>, seen: set<PageTracker>, views: Views, t: PageTracker, w: nat)
    requires Chosen(cands, seen, views) && NoneLost(cands, seen) && t in views && t !in seen && |cands| == CANDIDATES
    requires Worst(cands, views, w) && Key(views[cands[w]]) < Key(views[t])
    ensures Chosen(cands, seen + {t}, views) && NoneLost(cands, seen + {t})
  {
    assert t !in SetOf(cands);
  }

  lemma PushBetter(cands: seq<PageTracker>, seen: set<PageTracker>, views: Views, t: PageTracker, w: nat)
    requires Chosen(cands, seen, views) && NoneLost(cands, seen) && t in views && t !in seen && |cands| == CANDIDATES
    requires Worst(cands, views, w) && Key(views[t]) <= Key(views[cands[w]])
    ensures Chosen(cands[w := t], seen + {t}, views) && NoneLost(cands[w := t], seen + {t})
  {
    var c := cands[w := t];
    assert t !in SetOf(cands);
    assert forall j :: 0 <= j < |c| ==> c[j] == if j == w then t else cands[j];
    forall x, y | x in seen + {t} && x !in c && y in c ensures Key(views[y]) <= Key(views[x]) {
      var j :| 0 <= j < |c| && c[j] == y;
      if x in cands {
        var k :| 0 <= k < |cands| && cands[k] == x;
        assert k == w;
      } else {
        assert cands[w] in cands;
        assert j != w ==> cands[j] in cands;
      }
    }
    forall x | x in SetOf(c) ensures x in seen + {t} {
      var j :| 0 <= j < |c| && c[j] == x;
      assert j != w ==> cands[j] in SetOf(cands);
    }
  }

  // ----- how much there is to release -----

  /** Free pages that are backed, over all trackers on lists. */
  ghost function BackedSum(order: seq<PageTracker>, views: Views): int
    requires forall t :: t in order ==> t in views
  {
    if order == [] then 0 else views[order[0]].FreePages() - views[order[0]].releasedCount + BackedSum(order[1..], views)
  }

  /** The filler's own formula for its free pages. */
  function FreeOf(c: Counts): int { c.size * PAGES - (c.inUse.sparse + c.inUse.dense) - c.unmapped }

  lemma {:induction false} FreeTally(order: seq<PageTracker>, views: Views, mode: bool)
    requires forall t :: t in order ==> t in views
    ensures FreeOf(Tally(order, views, mode)) == BackedSum(order, views)
    decreases order
  {
    if order != [] {
      FreeTally(order[1..], views, mode);
      FreeAdd(views[order[0]], mode, Tally(order[1..], views, mode));
    }
  }

  lemma FreeAdd(s: State, mode: bool, rest: Counts)
    ensures FreeOf(Add(Add(Loose(s), OnList(s, mode)), rest)) == s.FreePages() - s.releasedCount + FreeOf(rest)
  {
    hide FamilyOf;
  }

  lemma {:induction false} BackedSumNonNeg(order: seq<PageTracker>, views: Views)
    requires forall t :: t in order ==> t in views && Ok(views[t])
    ensures BackedSum(order, views) >= 0
    decreases order
  {
    if order != [] {
      BackedCount(views[order[0]]);
      BackedSumNonNeg(order[1..], views);
    }
  }

  lemma {:induction false} BackedSumZero(order: seq<PageTracker>, views: Views)
    requires forall t :: t in order ==> t in views && views[t].FreePages() <= views[t].releasedCount
    ensures BackedSum(order, views) <= 0
    decreases order
  {
    if order != [] { BackedSumZero(order[1..], views); }
  }

  lemma ChosenKnown(cands: seq<PageTracker>, seen: set<PageTracker>, views: Views)
    requires Chosen(cands, seen, views)
    ensures |cands| <= CANDIDATES && forall t :: t in cands ==> t in views
  {
    forall t | t in cands ensures t in views { assert t in SetOf(cands); }
  }

  lemma WorstKnown(cands: seq<PageTracker>, views: Views, w: nat)
    requires Worst(cands, views, w)
    ensures w < |cands| && cands[w] in views
  {
  }

  // ----- scanning the lists of a family -----

  /** The lists of family `f` below `i` have been considered, on top of `base`. */
  ghost predicate Gathering(order: seq<PageTracker>, views: Views, mode: bool, f: Family, i: nat,
                           cands: seq<PageTracker>, seen: set<PageTracker>, base: set<PageTracker>) {
    ListScan(order, views, mode, f, i, cands, seen, base, [])
  }

  /** ... and of list `i` the trackers of `part`. */
  ghost predicate ListScan(order: seq<PageTracker>, views: Views, mode: bool, f: Family, i: nat,
                           cands: seq<PageTracker>, seen: set<PageTracker>, base: set<PageTracker>, part: seq<PageTracker>) {
    Chosen(cands, seen, views) && NoneLost(cands, seen) && AllReleasable(seen, order, views) && base <= seen &&
    (forall t :: t in base && t in views ==> FamilyOf(views[t], mode) != f) &&
    (forall t :: t in seen && t !in base ==> Reached(views, mode, f, i, part, t)) &&
    (forall t :: t in order && Reached(views, mode, f, i, part, t) && !views[t].flags.collapsing ==> t in seen)
  }

  ghost predicate Reached(views: Views, mode: bool, f: Family, i: nat, part: seq<PageTracker>, t: PageTracker) {
    t in views && 0 < views[t].free.nallocs <= PAGES && FamilyOf(views[t], mode) == f && IndexOf(views[t]) >= Start(f) &&
    (IndexOf(views[t]) < i || t in part)
  }

  lemma ListScanStart(order: seq<PageTracker>, views: Views, mode: bool, f: Family, i: nat,
                      cands: seq<PageTracker>, seen: set<PageTracker>, base: set<PageTracker>)
    requires Gathering(order, views, mode, f, i, cands, seen, base)
    ensures ListScan(order, views, mode, f, i, cands, seen, base, [])
  {
  }

  /** The next tracker of the list has not been considered, and has something to release. */
  lemma ListScanNext(order: seq<PageTracker>, freed: seq<PageTracker>, parked: set<PageTracker>, views: Views, b: Board, mode: bool,
                     f: Family, i: nat, cands: seq<PageTracker>, seen: set<PageTracker>, base: set<PageTracker>, k: nat)
    requires Kept(order, freed, parked, views, b, mode) && f in b && i < |b[f]| && k < |b[f][i]|
    requires ListScan(order, views, mode, f, i, cands, seen, base, b[f][i][..k])
    ensures Chosen(cands, seen, views) && NoneLost(cands, seen) && b[f][i][k] in views && b[f][i][k] !in seen
  {
    hide Chosen, NoneLost, AllReleasable;
    var t := b[f][i][k];
    assert On(b, t, f, i);
    assert t in SetOf(order) && Home(views[t], mode, f, i);
    assert NoDup(b[f][i]);
    assert t !in b[f][i][..k];
  }

  lemma ListScanStep(order: seq<PageTracker>, freed: seq<PageTracker>, parked: set<PageTracker>, views: Views, b: Board, mode: bool,
                     f: Family, i: nat, was: seq<PageTracker>, cands: seq<PageTracker>, seen: set<PageTracker>, seen': set<PageTracker>,
                     base: set<PageTracker>, k: nat)
    requires Kept(order, freed, parked, views, b, mode) && f in b && i < |b[f]| && k < |b[f][i]| && i >= Start(f) && !f.AllReleased?
    requires ListScan(order, views, mode, f, i, was, seen, base, b[f][i][..k])
    requires Chosen(cands, seen', views) && NoneLost(cands, seen') && b[f][i][k] in views
    requires seen' == if views[b[f][i][k]].flags.collapsing then seen else seen + {b[f][i][k]}
    ensures ListScan(order, views, mode, f, i, cands, seen', base, b[f][i][..k + 1])
  {
    hide *;
    OnFamily(order, freed, parked, views, b, mode, f, i, k);
    assert b[f][i][..k + 1] == b[f][i][..k] + [b[f][i][k]];
    ListScanAdd(order, views, mode, f, i, was, cands, seen, seen', base, b[f][i][..k], b[f][i][k]);
  }

  /** What a tracker on a list is. */
  lemma OnFamily(order: seq<PageTracker>, freed: seq<PageTracker>, parked: set<PageTracker>, views: Views, b: Board, mode: bool,
                 f: Family, i: nat, k: nat)
    requires Kept(order, freed, parked, views, b, mode) && f in b && i < |b[f]| && k < |b[f][i]| && i >= Start(f) && !f.AllReleased?
    ensures var t := b[f][i][k];
            t in order && t in views && 0 < views[t].free.nallocs <= PAGES && FamilyOf(views[t], mode) == f && IndexOf(views[t]) == i &&
            (!views[t].flags.collapsing ==> Releasable(views[t]))
  {
    var t := b[f][i][k];
    assert On(b, t, f, i);
    assert t in SetOf(order) && Home(views[t], mode, f, i);
    SkipFull(views[t], mode);
  }

  lemma ListScanAdd(order: seq<PageTracker>, views: Views, mode: bool, f: Family, i: nat, was: seq<PageTracker>,
                    cands: seq<PageTracker>, seen: set<PageTracker>, seen': set<PageTracker>, base: set<PageTracker>,
                    part: seq<PageTracker>, t: PageTracker)
    requires ListScan(order, views, mode, f, i, was, seen, base, part) && Chosen(cands, seen', views) && NoneLost(cands, seen')
    requires t in order && t in views && 0 < views[t].free.nallocs <= PAGES && FamilyOf(views[t], mode) == f && IndexOf(views[t]) == i >= Start(f)
    requires !views[t].flags.collapsing ==> Releasable(views[t])
    requires seen' == if views[t].flags.collapsing then seen else seen + {t}
    ensures ListScan(order, views, mode, f, i, cands, seen', base, part + [t])
  {
    hide Chosen, NoneLost, Releasable, FamilyOf, IndexOf;
  }

  lemma ListScanEnd(order: seq<PageTracker>, freed: seq<PageTracker>, parked: set<PageTracker>, views: Views, b: Board, mode: bool,
                    f: Family, i: nat, cands: seq<PageTracker>, seen: set<PageTracker>, base: set<PageTracker>)
    requires Kept(order, freed, parked, views, b, mode) && f in b && i < |b[f]| && i >= Start(f)
    requires ListScan(order, views, mode, f, i, cands, seen, base, b[f][i])
    ensures Gathering(order, views, mode, f, i + 1, cands, seen, base)
  {
    hide Chosen, NoneLost;
    forall t | t in order && Reached(views, mode, f, i + 1, [], t) ensures Reached(views, mode, f, i, b[f][i], t) {
      assert t in SetOf(order);
      assert Listed(views[t], b, mode, t);
    }
    forall t | t in seen && t !in base ensures Reached(views, mode, f, i + 1, [], t) {
      assert Reached(views, mode, f, i, b[f][i], t);
      if t in b[f][i] { assert On(b, t, f, i); }
    }
  }

  /** Lists that are empty can be passed over. */
  lemma ScanSkip(order: seq<PageTracker>, freed: seq<PageTracker>, parked: set<PageTracker>, views: Views, b: Board, mode: bool,
                 f: Family, i: nat, j: nat, cands: seq<PageTracker>, seen: set<PageTracker>, base: set<PageTracker>)
    requires Kept(order, freed, parked, views, b, mode) && f in b && i <= j <= |b[f]| && forall k :: i <= k < j ==> b[f][k] == []
    requires Gathering(order, views, mode, f, i, cands, seen, base)
    ensures Gathering(order, views, mode, f, j, cands, seen, base)
  {
    hide Chosen, NoneLost;
    forall t | t in order && Reached(views, mode, f, j, [], t) ensures Reached(views, mode, f, i, [], t) {
      assert t in SetOf(order);
      assert Listed(views[t], b, mode, t);
    }
  }

  /** Everything in the families `fs` that may be released has been considered. */
  ghost predicate Gathered(order: seq<PageTracker>, views: Views, mode: bool, fs: seq<Family>, cands: seq<PageTracker>, seen: set<PageTracker>) {
    Chosen(cands, seen, views) && NoneLost(cands, seen) && AllReleasable(seen, order, views) &&
    (forall t :: t in seen && t in views ==> FamilyOf(views[t], mode) in fs) &&
    (forall t :: (t in order && t in views && 0 < views[t].free.nallocs <= PAGES && FamilyOf(views[t], mode) in fs &&
                  IndexOf(views[t]) >= Start(FamilyOf(views[t], mode)) && !views[t].flags.collapsing) ==> t in seen)
  }

  lemma GatherNone(order: seq<PageTracker>, views: Views, mode: bool)
    ensures Gathered(order, views, mode, [], [], {})
  {
  }

  lemma GatherStart(order: seq<PageTracker>, views: Views, mode: bool, fs: seq<Family>, cands: seq<PageTracker>, seen: set<PageTracker>, f: Family)
    requires Gathered(order, views, mode, fs, cands, seen) && f !in fs
    ensures Gathering(order, views, mode, f, Start(f), cands, seen, seen)
  {
    hide Chosen, NoneLost, Releasable;
  }

  lemma GatherEnd(order: seq<PageTracker>, freed: seq<PageTracker>, parked: set<PageTracker>, views: Views, b: Board, mode: bool,
                  fs: seq<Family>, cands: seq<PageTracker>, seen: set<PageTracker>, f: Family, cands': seq<PageTracker>, seen': set<PageTracker>)
    requires Kept(order, freed, parked, views, b, mode)
    requires Gathered(order, views, mode, fs, cands, seen) && Gathering(order, views, mode, f, NumLists(f), cands', seen', seen)
    ensures Gathered(order, views, mode, fs + [f], cands', seen')
  {
    hide Chosen, NoneLost, Releasable, FamilyOf, IndexOf;
    forall t | t in order && t in views && 0 < views[t].free.nallocs <= PAGES && FamilyOf(views[t], mode) == f &&
               IndexOf(views[t]) >= Start(f) && !views[t].flags.collapsing
      ensures t in seen'
    {
      OrderKnown(order, freed, parked, views, b, mode, t);
      IndexInRange(views[t], mode);
      assert Reached(views, mode, f, NumLists(f), [], t);
    }
  }

  lemma GatheredParts(order: seq<PageTracker>, views: Views, mode: bool, fs: seq<Family>, cands: seq<PageTracker>, seen: set<PageTracker>)
    requires Gathered(order, views, mode, fs, cands, seen)
    ensures Candidates(order, views, cands)
  {
    hide Releasable;
    forall t | t in cands ensures t in order && t in views && Releasable(views[t]) { assert t in SetOf(cands); }
  }

  /** Distinct trackers with something to release. */
  ghost predicate Candidates(order: seq<PageTracker>, views: Views, cands: seq<PageTracker>) {
    NoDup(cands) && forall t :: t in cands ==> t in order && t in views && Releasable(views[t])
  }

  /** If no candidate was found, nothing in these families is free and backed, unless being collapsed. */
  lemma NoCandidates(order: seq<PageTracker>, freed: seq<PageTracker>, parked: set<PageTracker>, views: Views, b: Board, mode: bool,
                     fs: seq<Family>, seen: set<PageTracker>)
    requires Kept(order, freed, parked, views, b, mode) && Gathered(order, views, mode, fs, [], seen)
    requires forall f :: f in fs ==> !f.AllReleased?
    ensures Drained(order, views, mode, fs)
  {
    hide Chosen, Releasable;
    assert seen == {};
    forall t | t in order && t in views && FamilyOf(views[t], mode) in fs && !views[t].flags.collapsing
      ensures views[t].FreePages() <= views[t].releasedCount
    {
      OrderKnown(order, freed, parked, views, b, mode, t);
      SkipFull(views[t], mode);
    }
  }

  ghost predicate Drained(order: seq<PageTracker>, views: Views, mode: bool, fs: seq<Family>) {
    forall t :: t in order && t in views && FamilyOf(views[t], mode) in fs && !views[t].flags.collapsing ==>
      views[t].FreePages() <= views[t].releasedCount
  }

  const PARTIAL: seq<Family> := [Partial(false), Partial(true)]
  const WHOLE: seq<Family> := [Regular(false), Regular(true), Donated]

  /** When neither broken nor whole hugepages have anything left, nothing has. */
  lemma NothingFree(order: seq<PageTracker>, freed: seq<PageTracker>, parked: set<PageTracker>, views: Views, b: Board, mode: bool)
    requires Kept(order, freed, parked, views, b, mode) && Drained(order, views, mode, PARTIAL) && Drained(order, views, mode, WHOLE)
    requires forall t :: t in order && t in views ==> !views[t].flags.collapsing
    ensures (forall t :: t in order ==> t in views) && BackedSum(order, views) <= 0
  {
    forall t | t in order ensures t in views && views[t].FreePages() <= views[t].releasedCount {
      OrderKnown(order, freed, parked, views, b, mode, t);
      FamilyDense(views[t], mode);
      var d := views[t].flags.dense;
      assert d ==> Regular(d) == WHOLE[1] && Partial(d) == PARTIAL[1];
      assert !d ==> Regular(d) == WHOLE[0] && Partial(d) == PARTIAL[0];
      assert Donated == WHOLE[2];
    }
    BackedSumZero(order, views);
  }

  // ----- releasing from candidates -----

  ghost predicate SubsidedOne(s: State, t: State, mode: bool, success: bool) {
    t.free == s.free && t.allocs == s.allocs && s.released <= t.released &&
    t.flags.(donated := false) == s.flags.(donated := false) && (success ==> t == s || FamilyOf(t, mode).AllReleased?)
  }

  /** Some pages of some trackers were released; where that worked out, all free pages of the tracker were. */
  ghost predicate Subsided(views: Views, views': Views, mode: bool, success: bool) {
    views'.Keys == views.Keys && forall t :: t in views ==> SubsidedOne(views[t], views'[t], mode, success)
  }

  lemma SubsidedSelf(views: Views, mode: bool, success: bool)
    ensures Subsided(views, views, mode, success)
  {
  }

  lemma SubsidedStep(views: Views, mid: Views, views': Views, mode: bool, success: bool, t: PageTracker, done: set<nat>)
    requires Subsided(views, mid, mode, success) && ReleaseDone(mid, views', t, done) && t in mid && Releasable(mid[t])
    requires success ==> done == mid[t].Backed()
    ensures Subsided(views, views', mode, success) && (success ==> |done| > 0)
  {
    hide Releasable, State.Backed, SubsidedOne;
    BackedOf(mid[t]);
    SubsidedMore(views[t], mid[t], views'[t], mode, success, done);
  }

  lemma SubsidedMore(s: State, m: State, t: State, mode: bool, success: bool, done: set<nat>)
    requires SubsidedOne(s, m, mode, success) && m.FreePages() > m.releasedCount
    requires t.free == m.free && t.allocs == m.allocs && t.released == m.released + done && t.releasedCount == m.releasedCount + |done|
    requires t.flags == Undonated(m).flags && (success ==> |done| == m.FreePages() - m.releasedCount)
    ensures SubsidedOne(s, t, mode, success)
  {
  }

  lemma BackedOf(s: State)
    requires Releasable(s)
    ensures |s.Backed()| == s.FreePages() - s.releasedCount > 0
  {
    BackedCount(s);
  }

  /** The other candidates stay what they were. */
  lemma CandidatesRest(order: seq<PageTracker>, order': seq<PageTracker>, views: Views, views': Views, cands: seq<PageTracker>, k: nat, done: set<nat>)
    requires Candidates(order, views, cands) && k < |cands| && ReleaseDone(views, views', cands[k], done) && SetOf(order') == SetOf(order)
    ensures Candidates(order', views', cands[..k] + cands[k + 1..])
  {
    hide Releasable;
    var rest := cands[..k] + cands[k + 1..];
    forall t | t in rest ensures t in order' && t in views' && Releasable(views'[t]) {
      var j :| 0 <= j < |rest| && rest[j] == t;
      assert t == cands[if j < k then j else j + 1];
      assert t in SetOf(order) && t != cands[k];
    }
  }

  lemma SetOfMoved(order: seq<PageTracker>, t: PageTracker)
    requires NoDup(order) && t in order
    ensures SetOf([t] + Without(order, t)) == SetOf(order)
  {
    SetOfWithout(order, t);
    assert SetOf([t] + Without(order, t)) == SetOf(Without(order, t)) + {t};
    assert t in SetOf(order);
  }

  lemma ReleaseKeys(views: Views, views': Views, t: PageTracker, done: set<nat>)
    requires ReleaseDone(views, views', t, done)
    ensures views'.Keys == views.Keys
  {
  }

  /** What has been drained stays drained. */
  lemma DrainedStays(order: seq<PageTracker>, order': seq<PageTracker>, views: Views, views': Views, mode: bool, fs: seq<Family>)
    requires Drained(order, views, mode, fs) && Subsided(views, views', mode, true) && SetOf(order') == SetOf(order)
    requires forall f :: f in fs ==> !f.AllReleased?
    ensures Drained(order', views', mode, fs)
  {
    hide FamilyOf;
    forall t | t in order' && t in views' && FamilyOf(views'[t], mode) in fs && !views'[t].flags.collapsing
      ensures views'[t].FreePages() <= views'[t].releasedCount
    {
      assert t in SetOf(order);
      assert SubsidedOne(views[t], views'[t], mode, true);
    }
  }

  lemma SubsidedTrans(a: Views, b: Views, c: Views, mode: bool, success: bool)
    requires Subsided(a, b, mode, success) && Subsided(b, c, mode, success)
    ensures Subsided(a, c, mode, success)
  {
    hide FamilyOf;
    forall t | t in a ensures SubsidedOne(a[t], c[t], mode, success) {
      assert SubsidedOne(a[t], b[t], mode, success) && SubsidedOne(b[t], c[t], mode, success);
    }
  }

  lemma SubsidedCollapsing(order: seq<PageTracker>, order': seq<PageTracker>, views: Views, views': Views, mode: bool, success: bool)
    requires Subsided(views, views', mode, success) && SetOf(order') == SetOf(order)
    requires forall t :: t in order && t in views ==> !views[t].flags.collapsing
    ensures forall t :: t in order' && t in views' ==> !views'[t].flags.collapsing
  {
    forall t | t in order' && t in views' ensures !views'[t].flags.collapsing {
      assert t in SetOf(order);
      assert SubsidedOne(views[t], views'[t], mode, success);
    }
  }

  lemma SubsidedKeys(views: Views, views': Views, mode: bool, success: bool)
    requires Subsided(views, views', mode, success)
    ensures views'.Keys == views.Keys
  {
  }

  lemma FreshFamily(fs: seq<Family>, k: nat)
    requires NoDup(fs) && k < |fs| && forall f :: f in fs ==> !f.AllReleased?
    ensures fs[k] !in fs[..k] && !fs[k].AllReleased?
  {
  }

  lemma AllOk(order: seq<PageTracker>, freed: seq<PageTracker>, parked: set<PageTracker>, views: Views, b: Board, mode: bool)
    requires Kept(order, freed, parked, views, b, mode)
    ensures forall t :: t in order ==> t in views && Ok(views[t])
  {
    forall t | t in order ensures t in views && Ok(views[t]) {
      OrderKnown(order, freed, parked, views, b, mode, t);
    }
  }

  /** The candidates `left` over have not been touched, and none of them is better than
      one that was released from. */
  ghost predicate BestFirst(cands: seq<PageTracker>, left: seq<PageTracker>, views: Views, views': Views) {
    (forall t :: t in left ==> t in cands) && (forall t :: t in cands ==> t in views) &&
    (forall t :: t in left ==> t in views' && views'[t] == views[t]) &&
    forall x, y :: x in cands && x !in left && y in left ==> Key(views[x]) <= Key(views[y])
  }

  lemma BestFirstStart(order: seq<PageTracker>, cands: seq<PageTracker>, views: Views)
    requires Candidates(order, views, cands)
    ensures BestFirst(cands, cands, views, views)
  {
  }

  lemma BestFirstStep(cands: seq<PageTracker>, left: seq<PageTracker>, views: Views, mid: Views, views': Views, b: nat, done: set<nat>)
    requires BestFirst(cands, left, views, mid) && b < |left| && NoDup(left) && ReleaseDone(mid, views', left[b], done)
    requires forall j :: 0 <= j < |left| ==> left[j] in mid && left[b] in mid && Key(mid[left[b]]) <= Key(mid[left[j]])
    ensures BestFirst(cands, left[..b] + left[b + 1..], views, views')
  {
    var rest := left[..b] + left[b + 1..];
    forall t | t in rest ensures t in left && t != left[b] {
      var j :| 0 <= j < |rest| && rest[j] == t;
      assert t == left[if j < b then j else j + 1];
    }
    forall t | t in left && t != left[b] ensures t in rest {
      var j :| 0 <= j < |left| && left[j] == t;
      assert t == rest[if j < b then j else j - 1];
    }
    forall x, y | x in cands && x !in rest && y in rest ensures Key(views[x]) <= Key(views[y]) {
      if x in left {
        assert x == left[b];
        var j :| 0 <= j < |left| && left[j] == y;
      }
    }
  }

  lemma CandidatesNoDup(order: seq<PageTracker>, views: Views, cands: seq<PageTracker>)
    requires Candidates(order, views, cands)
    ensures NoDup(cands)
  {
  }
}

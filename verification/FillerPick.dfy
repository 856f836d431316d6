/** Which tracker an allocation is served from. */
module FillerPick {
  import opened Lists
  import opened RangeTrackers
  import opened PageTrackers
  import opened FillerLists
  import opened FillerBooks
  import opened FillerKeep

  /** A tracker of the right density with a free run of `n` pages. */
  predicate Fits(s: State, n: nat, dense: bool) {
    s.flags.dense == dense && s.free.longest >= n
  }

  /** The order in which families are tried. */
  function Rank(f: Family): nat {
    match f
    case Regular(_) => 0
    case Donated => 1
    case Partial(_) => 2
    case AllReleased(_) => 3
  }

  /** The first list to look at. */
  function FirstList(f: Family, n: nat, dense: bool): nat {
    if f.Donated? then n else ListFor(n, 0, dense, PAGES - 1)
  }

  /** The lists from the first one on are those with room for `n` pages. */
  lemma FitsFrom(s: State, mode: bool, n: nat, dense: bool)
    requires InUse(s) && 0 < n < PAGES && (dense ==> n == 1) && s.flags.dense == dense
    ensures 0 < s.free.nallocs <= PAGES
    ensures Fits(s, n, dense) <==> IndexOf(s) >= FirstList(FamilyOf(s, mode), n, dense)
  {
    InUseBounds(s);
  }

  /** Among sparse trackers of one family a lower list means a shorter longest free run,
      or the same and at least as many allocations, in powers of two. */
  lemma LowerList(s: State, t: State, mode: bool)
    requires InUse(s) && InUse(t) && FamilyOf(s, mode) == FamilyOf(t, mode) && !s.flags.dense && !t.flags.dense
    ensures 0 < s.free.nallocs <= PAGES && 0 < t.free.nallocs <= PAGES
    ensures IndexOf(s) <= IndexOf(t) <==>
            s.free.longest < t.free.longest ||
            (s.free.longest == t.free.longest && (s.flags.donated || Chunk(s.free.nallocs) <= Chunk(t.free.nallocs)))
  {
    InUseBounds(s);
    InUseBounds(t);
  }

  /** Nothing of family `f` is on a list in `[from, to)`. */
  ghost predicate Nothing(order: seq<PageTracker>, views: Views, mode: bool, f: Family, from: nat, to: nat) {
    forall t :: t in order && t in views && 0 < views[t].free.nallocs <= PAGES && FamilyOf(views[t], mode) == f ==>
      !(from <= IndexOf(views[t]) < to)
  }

  lemma EmptyLists(order: seq<PageTracker>, freed: seq<PageTracker>, parked: set<PageTracker>, views: Views, b: Board, mode: bool,
                   f: Family, from: nat, to: nat)
    requires Kept(order, freed, parked, views, b, mode) && f in b && to <= |b[f]|
    requires forall j :: from <= j < to ==> b[f][j] == []
    ensures Nothing(order, views, mode, f, from, to)
  {
    forall t | t in order && t in views && 0 < views[t].free.nallocs <= PAGES && FamilyOf(views[t], mode) == f
      ensures !(from <= IndexOf(views[t]) < to)
    {
      assert t in SetOf(order);
      assert Listed(views[t], b, mode, t);
    }
  }

  lemma HeadHome(order: seq<PageTracker>, freed: seq<PageTracker>, parked: set<PageTracker>, views: Views, b: Board, mode: bool,
                 f: Family, i: nat)
    requires Kept(order, freed, parked, views, b, mode) && f in b && i < |b[f]| && b[f][i] != []
    ensures b[f][i][0] in order && b[f][i][0] in views && Home(views[b[f][i][0]], mode, f, i)
    ensures b[f := b[f][i := b[f][i][1..]]] == Unlisted(b, f, i, b[f][i][0])
  {
    var t := b[f][i][0];
    assert On(b, t, f, i);
    assert t in SetOf(order);
    assert Without(b[f][i], t) == b[f][i][1..];
  }

  /** `t` is on the first non-empty list of its family from `from` on. */
  ghost predicate LeastOf(order: seq<PageTracker>, views: Views, mode: bool, f: Family, from: nat, t: PageTracker) {
    t in order && t in views && 0 < views[t].free.nallocs <= PAGES && FamilyOf(views[t], mode) == f &&
    from <= IndexOf(views[t]) && Nothing(order, views, mode, f, from, IndexOf(views[t]))
  }

  /** No family tried before `f` has room. */
  ghost predicate Passed(order: seq<PageTracker>, views: Views, mode: bool, n: nat, dense: bool, f: Family) {
    forall t :: t in order && t in views && Fits(views[t], n, dense) ==> Rank(FamilyOf(views[t], mode)) >= Rank(f)
  }

  /** `t` is the choice: the first family with room, and in it the lowest list with room. */
  ghost predicate Best(order: seq<PageTracker>, views: Views, mode: bool, n: nat, dense: bool, t: PageTracker) {
    t in order && t in views && 0 < views[t].free.nallocs <= PAGES && Fits(views[t], n, dense) &&
    Passed(order, views, mode, n, dense, FamilyOf(views[t], mode)) &&
    forall x :: (x in order && x in views && 0 < views[x].free.nallocs <= PAGES && Fits(views[x], n, dense) &&
                 FamilyOf(views[x], mode) == FamilyOf(views[t], mode)) ==> IndexOf(views[t]) <= IndexOf(views[x])
  }

  ghost predicate NoRoom(order: seq<PageTracker>, views: Views, n: nat, dense: bool) {
    forall t :: t in order && t in views ==> !Fits(views[t], n, dense)
  }

  ghost predicate AllInUse(order: seq<PageTracker>, views: Views) {
    forall t :: t in order ==> t in views && InUse(views[t])
  }

  lemma ListedInUse(order: seq<PageTracker>, freed: seq<PageTracker>, parked: set<PageTracker>, views: Views, b: Board, mode: bool)
    requires Kept(order, freed, parked, views, b, mode)
    ensures AllInUse(order, views)
  {
    forall t | t in order ensures t in views && InUse(views[t]) {
      assert t in SetOf(order);
      assert Listed(views[t], b, mode, t);
    }
  }

  /** The families of one density. */
  lemma FamilyDense(s: State, mode: bool)
    requires InUse(s)
    ensures FamilyOf(s, mode) in {Regular(s.flags.dense), Donated, Partial(s.flags.dense), AllReleased(s.flags.dense)}
    ensures FamilyOf(s, mode) == Donated ==> !s.flags.dense
  {
  }

  lemma PickedBest(order: seq<PageTracker>, views: Views, mode: bool, n: nat, dense: bool, f: Family, t: PageTracker)
    requires AllInUse(order, views) && 0 < n < PAGES && (dense ==> n == 1) && (f == Donated ==> !dense)
    requires f in {Regular(dense), Donated, Partial(dense), AllReleased(dense)}
    requires Passed(order, views, mode, n, dense, f) && LeastOf(order, views, mode, f, FirstList(f, n, dense), t)
    ensures Best(order, views, mode, n, dense, t) && FamilyOf(views[t], mode) == f
  {
    FitsFrom(views[t], mode, n, views[t].flags.dense);
    forall x | x in order && x in views && 0 < views[x].free.nallocs <= PAGES && Fits(views[x], n, dense) && FamilyOf(views[x], mode) == f
      ensures IndexOf(views[t]) <= IndexOf(views[x])
    {
      FitsFrom(views[x], mode, n, dense);
    }
  }

  /** Nothing of family `f` fits: on to the next family. */
  lemma PassOn(order: seq<PageTracker>, views: Views, mode: bool, n: nat, dense: bool, f: Family, g: Family)
    requires AllInUse(order, views) && 0 < n < PAGES && (dense ==> n == 1)
    requires f in {Regular(dense), Donated, Partial(dense), AllReleased(dense)}
    requires Passed(order, views, mode, n, dense, f) && Rank(g) == Rank(f) + 1
    requires Nothing(order, views, mode, f, FirstList(f, n, dense), NumLists(f)) || (f == Donated && dense)
    ensures Passed(order, views, mode, n, dense, g)
  {
    forall t | t in order && t in views && Fits(views[t], n, dense) ensures Rank(FamilyOf(views[t], mode)) >= Rank(g) {
      FitsFrom(views[t], mode, n, dense);
      IndexInRange(views[t], mode);
      FamilyDense(views[t], mode);
    }
  }

  lemma NothingLeft(order: seq<PageTracker>, views: Views, mode: bool, n: nat, dense: bool)
    requires AllInUse(order, views) && 0 < n < PAGES && (dense ==> n == 1)
    requires Passed(order, views, mode, n, dense, AllReleased(dense))
    requires Nothing(order, views, mode, AllReleased(dense), FirstList(AllReleased(dense), n, dense), NUM_LISTS)
    ensures NoRoom(order, views, n, dense)
  {
    forall t | t in order && t in views ensures !Fits(views[t], n, dense) {
      if views[t].flags.dense == dense { FitsFrom(views[t], mode, n, dense); }
      IndexInRange(views[t], mode);
      FamilyDense(views[t], mode);
    }
  }

  /** The counters before and after the pages of an allocation are charged. */
  lemma GotBooks(s: State, t: State, n: nat, i: nat, unbacked: nat, mode: bool, rest: Counts, c: Counts)
    requires Got(s, t, n, i, unbacked) && c == Add(Add(Loose(s), rest), OnList(Undonated(t), mode))
    ensures unbacked <= c.unmapped
    ensures c.(inUse := c.inUse.With(s.flags.dense, c.inUse.At(s.flags.dense) + n), unmapped := c.unmapped - unbacked)
            == Add(Add(Loose(Undonated(t)), OnList(Undonated(t), mode)), rest)
  {
  }

  /** A tracker with a new allocation is in use. */
  lemma GotInUse(s: State, t: State, n: nat, i: nat, unbacked: nat)
    requires Sane(s) && Got(s, t, n, i, unbacked) && Ok(t) && (s.flags.dense ==> n == 1)
    ensures InUse(Undonated(t)) && Sane(t) && t.free.longest < PAGES
  {
    LongestExtremes(t.free);
    GotSane(s, t, n, i, unbacked);
    assert InUse(Undonated(t)) by { hide Got, Ok; }
  }

  lemma GotSane(s: State, t: State, n: nat, i: nat, unbacked: nat)
    requires Sane(s) && Got(s, t, n, i, unbacked) && Ok(t) && (s.flags.dense ==> n == 1)
    ensures Sane(t)
  {
    hide Ok;
  }

  lemma KeptShaped(order: seq<PageTracker>, freed: seq<PageTracker>, parked: set<PageTracker>, views: Views, b: Board, mode: bool,
                   f: Family)
    requires Kept(order, freed, parked, views, b, mode)
    ensures f in b && |b[f]| == NumLists(f)
  {
  }

  lemma TakenLeast(order: seq<PageTracker>, freed: seq<PageTracker>, parked: set<PageTracker>, views: Views, b: Board, mode: bool,
                   f: Family, from: nat, i: nat)
    requires Kept(order, freed, parked, views, b, mode) && f in b && from <= i < |b[f]| && b[f][i] != []
    requires Nothing(order, views, mode, f, from, i)
    ensures var t := b[f][i][0];
            LeastOf(order, views, mode, f, from, t) && FamilyOf(views[t], mode) == f && Sane(views[t]) && t in order && t in views &&
            Kept(Without(order, t), freed, parked + {t}, views, b[f := b[f][i := b[f][i][1..]]], mode)
  {
    HeadHome(order, freed, parked, views, b, mode, f, i);
    KeptTake(order, freed, parked, views, b, mode, b[f][i][0], f, i);
  }

  lemma FirstLists(order: seq<PageTracker>, views: Views, mode: bool, n: nat, dense: bool)
    requires 0 < n < PAGES && (dense ==> n == 1)
    ensures Passed(order, views, mode, n, dense, Regular(dense)) && ListFor(n, 0, dense, PAGES - 1) <= NUM_LISTS
    ensures forall f: Family :: f != Donated ==> FirstList(f, n, dense) == ListFor(n, 0, dense, PAGES - 1) && NumLists(f) == NUM_LISTS
    ensures FirstList(Donated, n, dense) == n && NumLists(Donated) == PAGES
    ensures Rank(Donated) == Rank(Regular(dense)) + 1 && Rank(Partial(dense)) == Rank(Donated) + 1
    ensures Rank(AllReleased(dense)) == Rank(Partial(dense)) + 1
  {
  }

  lemma ParkedSane(order: seq<PageTracker>, freed: seq<PageTracker>, parked: set<PageTracker>, views: Views, b: Board, mode: bool,
                   t: PageTracker)
    requires Kept(order, freed, parked, views, b, mode) && t in parked
    ensures t in views && Sane(views[t]) && Ok(views[t])
  {
  }

  lemma GotFlags(s: State, t: State, n: nat, i: nat, unbacked: nat)
    requires Got(s, t, n, i, unbacked)
    ensures t.flags == s.flags && Undonated(t).flags == Undonated(s).flags
  {
  }

  lemma BestFits(order: seq<PageTracker>, views: Views, mode: bool, n: nat, dense: bool, t: PageTracker)
    requires Best(order, views, mode, n, dense, t)
    ensures t in order && t in views && views[t].free.longest >= n && views[t].flags.dense == dense && !NoRoom(order, views, n, dense)
  {
  }

  /** The allocation of `n` pages at `i` on `t`, and nothing else, has happened. */
  ghost predicate Served(views: Views, views': Views, t: PageTracker, n: nat, i: nat) {
    t in views && t in views' && views' == views[t := views'[t]] && !views'[t].flags.donated &&
    Got(views[t], views'[t].(flags := views[t].flags), n, i, |views[t].released * Run(i, n)|) &&
    views'[t].flags == Undonated(views[t]).flags
  }

  lemma ServedBy(order: seq<PageTracker>, views: Views, views': Views, parked: set<PageTracker>, sampled: set<PageTracker>, chosen: set<PageTracker>,
                 t: PageTracker, n: nat, i: nat, unbacked: nat, s: State)
    requires t in views && t in order && NoDup(order) && t !in parked
    requires views' == views[t := Undonated(s)] && Got(views[t], s, n, i, unbacked) && Undonated(s).flags == Undonated(views[t]).flags
    requires Holds(views, sampled, chosen) && AllIdle(parked, views)
    ensures Served(views, views', t, n, i) && Holds(views', sampled, chosen) && AllIdle(parked, views')
    ensures SetOf([t] + Without(order, t)) == SetOf(order)
  {
    SetOfWithout(order, t);
    assert SetOf([t] + Without(order, t)) == SetOf(Without(order, t)) + {t};
    assert t in SetOf(order);
  }
}

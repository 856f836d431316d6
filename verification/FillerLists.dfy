/** How the filler arranges its trackers: which list a tracker belongs on, and what
    the lists of all families hold together (tcmalloc/huge_page_filler.h). */
module FillerLists {
  import opened Lists
  import opened RangeTrackers
  import opened PageTrackers

  const CHUNKS: nat := 8
  const NUM_LISTS: nat := PAGES * CHUNKS

  /** More allocations give a lower chunk, in powers of two, down to 0. `63 - ceil(log2(na))`
      counted from the chunk of a single allocation, `CHUNKS - 1`. */
  function Chunk(na: nat): (i: nat)
    requires na > 0
    ensures i < CHUNKS
  {
    var negCeilLog := if BitWidth(2 * na - 1) <= 64 then 64 - BitWidth(2 * na - 1) else 0;
    var offset := 63 - (CHUNKS - 1);
    assert BitWidth(2 * na - 1) >= 1;
    (if negCeilLog >= offset then negCeilLog else offset) - offset
  }

  lemma ChunkMonotone(a: nat, b: nat)
    requires 0 < a <= b
    ensures Chunk(a) >= Chunk(b)
  {
    BitWidthMonotone(2 * a - 1, 2 * b - 1);
  }

  /** The groups of lists: freshly donated trackers, and, by access density, trackers with
      all of their free pages backed, some, or none. */
  datatype Family = Donated | Regular(dense: bool) | Partial(dense: bool) | AllReleased(dense: bool)

  function NumLists(f: Family): nat {
    if f.Donated? then PAGES else NUM_LISTS
  }

  /** The number of a list among those for one density. */
  function ListFor(longest: nat, chunk: nat, dense: bool, nallocs: nat): nat
    requires nallocs <= PAGES
  {
    if dense then (PAGES - nallocs) * CHUNKS + chunk else longest * CHUNKS + chunk
  }

  /** The list a tracker in state `s` belongs on. `mode` says whether hugepages found
      broken are kept apart. */
  function FamilyOf(s: State, mode: bool): Family {
    if s.flags.donated then Donated
    else if s.releasedCount == 0 && (s.unbroken || !mode) then Regular(s.flags.dense)
    else if s.FreePages() <= s.releasedCount then AllReleased(s.flags.dense)
    else Partial(s.flags.dense)
  }

  function IndexOf(s: State): nat
    requires 0 < s.free.nallocs <= PAGES
  {
    if s.flags.donated then s.free.longest
    else ListFor(s.free.longest, if s.flags.dense then 0 else Chunk(s.free.nallocs), s.flags.dense, s.free.nallocs)
  }

  /** The same, read off the tracker. */
  function FamilyNow(t: PageTracker, mode: bool): (f: Family)
    reads t
    ensures f == FamilyOf(t.Now(), mode)
  {
    if t.flags.donated then Donated
    else if t.releasedCount == 0 && (t.unbroken || !mode) then Regular(t.flags.dense)
    else if PAGES - t.free.nused <= t.releasedCount then AllReleased(t.flags.dense)
    else Partial(t.flags.dense)
  }

  function IndexNow(t: PageTracker): (i: nat)
    reads t
    requires 0 < t.free.nallocs <= PAGES
    ensures i == IndexOf(t.Now())
  {
    if t.flags.donated then t.free.longest
    else ListFor(t.free.longest, if t.flags.dense then 0 else Chunk(t.free.nallocs), t.flags.dense, t.free.nallocs)
  }

  /** On a tracker of dense spans every allocation is one page; the free pages of one
      being collapsed are backed. */
  ghost predicate Sane(s: State) {
    Ok(s) && (s.flags.dense ==> s.free.nallocs == s.free.nused && forall a :: a in s.allocs ==> a.len == 1) &&
    (s.flags.collapsing ==> s.releasedCount == 0)
  }

  /** There are no more allocations than pages in use. */
  lemma {:induction false} AllocsBound(allocs: set<Piece>, used: set<nat>)
    requires Allocated(allocs, used)
    ensures |allocs| <= |used|
    decreases allocs
  {
    if allocs != {} {
      var a :| a in allocs;
      AllocatedDrop(allocs, used, a);
      AllocsBound(allocs - {a}, used - Run(a.start, a.len));
      RunCount(a.start, a.len);
      SubsetCount(Run(a.start, a.len), used);
    }
  }

  /** In use, and so on some list. A donated tracker has not been used since, so all its
      free pages are backed. */
  ghost predicate InUse(s: State) {
    Sane(s) && s.free.nused > 0 && (s.flags.donated ==> !s.flags.dense && s.releasedCount == 0 && s.free.longest > 0)
  }

  lemma InUseBounds(s: State)
    requires InUse(s)
    ensures 0 < s.free.nallocs <= PAGES && s.free.longest < PAGES && s.free.nused <= PAGES
    ensures s.flags.dense ==> (s.free.longest > 0 <==> s.free.nallocs < PAGES)
  {
    LongestExtremes(s.free);
    EmptyTracker(s);
    AllocsBound(s.allocs, s.free.used);
    RunCount(0, PAGES);
    SubsetCount(s.free.used, Run(0, PAGES));
  }

  lemma IndexInRange(s: State, mode: bool)
    requires InUse(s)
    ensures 0 < s.free.nallocs <= PAGES && IndexOf(s) < NumLists(FamilyOf(s, mode))
  {
    InUseBounds(s);
  }

  // ----- the lists of all families -----

  type Board = map<Family, seq<seq<PageTracker>>>
  type Views = map<PageTracker, State>

  ghost predicate Shaped(b: Board) {
    forall f: Family :: f in b && |b[f]| == NumLists(f)
  }

  ghost predicate On(b: Board, older t: PageTracker, f: Family, i: nat) {
    f in b && i < |b[f]| && t in b[f][i]
  }

  /** The tracker is where its state says. */
  ghost predicate Home(s: State, mode: bool, f: Family, i: nat) {
    InUse(s) && 0 < s.free.nallocs <= PAGES && f == FamilyOf(s, mode) && i == IndexOf(s)
  }

  /** The trackers of `listed`, and no others, are on lists: each once, where its state says. */
  ghost predicate Placed(listed: set<PageTracker>, views: Views, b: Board, mode: bool) {
    Shaped(b) && listed <= views.Keys &&
    (forall f: Family, i: nat :: f in b && i < |b[f]| ==> NoDup(b[f][i])) &&
    (forall t :: t in listed ==> Listed(views[t], b, mode, t)) &&
    (forall f: Family, i: nat, t: PageTracker :: On(b, t, f, i) ==> t in listed && Home(views[t], mode, f, i))
  }

  ghost predicate Listed(s: State, b: Board, mode: bool, t: PageTracker) {
    InUse(s) && 0 < s.free.nallocs <= PAGES && On(b, t, FamilyOf(s, mode), IndexOf(s))
  }

  ghost function Unlisted(b: Board, f: Family, i: nat, t: PageTracker): Board
    requires f in b && i < |b[f]|
  {
    b[f := b[f][i := Without(b[f][i], t)]]
  }

  ghost function Prepended(b: Board, f: Family, i: nat, t: PageTracker): Board
    requires f in b && i < |b[f]|
  {
    b[f := b[f][i := [t] + b[f][i]]]
  }

  /** Taking a tracker off the list its state names. */
  lemma TakeOff(listed: set<PageTracker>, views: Views, b: Board, mode: bool, t: PageTracker, f: Family, i: nat)
    requires Placed(listed, views, b, mode) && t in listed && Home(views[t], mode, f, i)
    ensures On(b, t, f, i) && Placed(listed - {t}, views, Unlisted(b, f, i, t), mode)
  {
    assert Listed(views[t], b, mode, t);
    assert NoDup(b[f][i]);
    WithoutIn(b[f][i], t);
    var b' := Unlisted(b, f, i, t);
    forall x | x in listed - {t} ensures Listed(views[x], b', mode, x) {
      assert Listed(views[x], b, mode, x);
    }
    forall g: Family, j: nat, x: PageTracker | On(b', x, g, j) ensures x in listed - {t} && Home(views[x], mode, g, j) {
      assert On(b, x, g, j);
    }
  }

  /** Putting a tracker on the list its state names. */
  lemma PutOn(listed: set<PageTracker>, views: Views, b: Board, mode: bool, t: PageTracker, f: Family, i: nat)
    requires Placed(listed, views, b, mode) && t in views && t !in listed && Home(views[t], mode, f, i)
    ensures f in b && i < |b[f]| && Placed(listed + {t}, views, Prepended(b, f, i, t), mode)
  {
    IndexInRange(views[t], mode);
    var b' := Prepended(b, f, i, t);
    assert t !in b[f][i] by { assert !On(b, t, f, i); }
    assert NoDup(b[f][i]);
    forall x | x in listed + {t} ensures Listed(views[x], b', mode, x) {
      if x in listed { assert Listed(views[x], b, mode, x); }
    }
    forall g: Family, j: nat, x: PageTracker | On(b', x, g, j) ensures x in listed + {t} && Home(views[x], mode, g, j) {
      if x != t || g != f || j != i { assert On(b, x, g, j); }
    }
  }

  /** What a tracker that is on no list looks like does not matter. */
  lemma PlacedFrame(listed: set<PageTracker>, views: Views, views': Views, b: Board, mode: bool)
    requires Placed(listed, views, b, mode) && listed <= views'.Keys
    requires forall t :: t in listed ==> views'[t] == views[t]
    ensures Placed(listed, views', b, mode)
  {
    forall t | t in listed ensures Listed(views'[t], b, mode, t) {
      assert Listed(views[t], b, mode, t);
    }
  }
}

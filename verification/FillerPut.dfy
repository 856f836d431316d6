/** Freeing and releasing, on the level of one tracker and the counters. */
module FillerPut {
  import opened Lists
  import opened RangeTrackers
  import opened PageTrackers
  import opened FillerLists
  import opened FillerBooks
  import opened FillerKeep

  lemma SaneOk(s: State)
    requires Sane(s)
    ensures Ok(s)
  {
  }

  lemma Recount(s: State, mode: bool, rest: Counts)
    ensures Add(Add(Loose(s), rest), OnList(Undonated(s), mode)) == Add(Add(Loose(Undonated(s)), OnList(Undonated(s), mode)), rest)
  {
    assert Loose(Undonated(s)) == Loose(s);
    hide *;
    var x, y := Loose(s), OnList(Undonated(s), mode);
    AddComm(x, rest, y);
    AddComm(x, y, rest);
    AddComm(rest, y, x);
  }

  lemma PutSane(s: State, t: State, n: nat, i: nat)
    requires Sane(s) && PutBack(s, t, n, i) && Ok(t)
    ensures Sane(t) && t.flags == s.flags
  {
  }

  lemma PutBooks(s: State, t: State, n: nat, i: nat, rest: Counts, c: Counts)
    requires PutBack(s, t, n, i) && c == Add(Loose(s), rest)
    ensures n <= c.inUse.At(s.flags.dense) && t.flags == s.flags
    ensures c.(inUse := c.inUse.With(s.flags.dense, c.inUse.At(s.flags.dense) - n)) == Add(Loose(t), rest)
  {
  }

  /** An empty tracker leaves the books. */
  lemma EmptyBooks(t: State, rest: Counts, c: Counts)
    requires c == Add(Loose(t), rest) && t.free.nused == 0
    ensures c.size > 0 && t.releasedCount <= c.unmapped
    ensures c.(size := c.size - 1, unmapped := c.unmapped - t.releasedCount) == rest
  {
  }

  /** What is left in use after a `Put`: the tracker belongs on a list, or is empty. */
  lemma PutKind(s: State, t: State, n: nat, i: nat)
    requires InUse(s) && PutBack(s, t, n, i) && Sane(t)
    ensures t.free.longest <= PAGES && (t.free.longest == PAGES <==> t.free.nused == 0)
    ensures t.free.longest == PAGES ==> Idle(t)
    ensures t.free.longest < PAGES ==> InUse(Undonated(t))
    ensures t.free.nused == 0 <==> Run(i, n) == s.free.used
  {
    LongestExtremes(t.free);
  }

  /** The allocation of `n` pages at `i` on `t`, and nothing else, has been freed. */
  ghost predicate PutDone(views: Views, views': Views, t: PageTracker, n: nat, i: nat) {
    t in views && t in views' && views' == views[t := views'[t]] &&
    PutBack(views[t], views'[t].(flags := views[t].flags), n, i) && Undonated(views'[t]).flags == Undonated(views[t]).flags
  }

  lemma PutDoneAt(views: Views, put: Views, back: Views, parked: set<PageTracker>, sampled: set<PageTracker>, chosen: set<PageTracker>,
                  t: PageTracker, n: nat, i: nat)
    requires t in views && t in put && put == views[t := put[t]] && PutBack(views[t], put[t], n, i) && back == put[t := Undonated(put[t])]
    requires Holds(views, sampled, chosen) && AllIdle(parked, views) && t !in parked
    ensures PutDone(views, put, t, n, i) && Holds(put, sampled, chosen) && AllIdle(parked, put)
    ensures PutDone(views, back, t, n, i) && Holds(back, sampled, chosen) && AllIdle(parked, back)
    ensures put[t].free.nused == 0 && Idle(put[t]) ==> AllIdle(parked + {t}, put)
    ensures Undonated(put[t]).free == put[t].free && Undonated(put[t]).releasedCount == put[t].releasedCount
  {
    hide Idle;
    PutDoneOne(views, put, parked, sampled, chosen, t, n, i);
    PutDoneOne(views, back, parked, sampled, chosen, t, n, i);
  }

  lemma PutDoneOne(views: Views, views': Views, parked: set<PageTracker>, sampled: set<PageTracker>, chosen: set<PageTracker>,
                   t: PageTracker, n: nat, i: nat)
    requires PutDone(views, views', t, n, i) && Holds(views, sampled, chosen) && AllIdle(parked, views) && t !in parked
    ensures Holds(views', sampled, chosen) && AllIdle(parked, views')
  {
    hide Idle;
  }

  lemma ParkedIdle(parked: set<PageTracker>, views: Views, t: PageTracker)
    requires AllIdle(parked, views) && t in parked && t in views
    ensures Idle(views[t]) && views[t].free.longest == PAGES && views[t].free.nused == 0 && views[t].releasedCount <= PAGES
  {
    LongestExtremes(views[t].free);
    BackedCount(views[t]);
  }

  lemma HeldBy(views: Views, sampled: set<PageTracker>, chosen: set<PageTracker>, t: PageTracker)
    requires Holds(views, sampled, chosen) && t in views
    ensures views[t].flags.Held() <==> t in sampled + chosen
  {
  }

  lemma FewerIdle(parked: set<PageTracker>, parked': set<PageTracker>, views: Views)
    requires AllIdle(parked, views) && parked' <= parked
    ensures AllIdle(parked', views)
  {
  }

  lemma PutDoneElse(views: Views, views': Views, t: PageTracker, n: nat, i: nat)
    requires PutDone(views, views', t, n, i)
    ensures views' - {t} == views - {t}
  {
  }

  lemma PickIdle(order: seq<PageTracker>, freed: seq<PageTracker>, parked: set<PageTracker>, views: Views, b: Board, mode: bool)
    requires Kept(order, freed, parked, views, b, mode) && freed != [] && AllIdle(parked, views)
    ensures freed[0] in views && freed[0] !in parked && AllIdle(parked + {freed[0]}, views)
  {
    hide Placed;
    assert freed[0] in SetOf(freed);
    assert freed[0] in freed;
  }

  // ----- contributing -----

  /** A tracker fit to join: in use, nothing released, no treatment. */
  ghost predicate Contributable(s: State, donate: bool, dense: bool) {
    Ok(s) && s.free.nused > 0 && s.releasedCount == 0 &&
    s.flags == s.flags.(dense := false, donated := false, sampleHold := false, collapseHold := false, collapsing := false) &&
    (dense ==> s.free.nallocs == s.free.nused && forall a :: a in s.allocs ==> a.len == 1) &&
    (donate ==> !dense && s.free.longest > 0)
  }

  ghost function Densed(s: State, dense: bool): State { s.(flags := s.flags.(dense := dense)) }

  ghost function Contributed(s: State, donate: bool, dense: bool): State {
    s.(flags := s.flags.(dense := dense, donated := donate))
  }

  lemma ContributableFits(s: State, donate: bool, dense: bool)
    requires Contributable(s, donate, dense)
    ensures Sane(Densed(s, dense)) && Densed(s, dense).free.longest < PAGES
    ensures donate ==> InUse(Redonated(Densed(s, dense))) && Redonated(Densed(s, dense)) == Contributed(s, donate, dense)
    ensures !donate ==> InUse(Undonated(Densed(s, dense))) && Undonated(Densed(s, dense)) == Contributed(s, donate, dense)
  {
    LongestExtremes(s.free);
  }

  lemma ContributedBooks(s: State, donate: bool, dense: bool, mode: bool, rest: Counts, c: Counts)
    requires Contributable(s, donate, dense)
    requires c == Add(rest.(inUse := rest.inUse.With(dense, rest.inUse.At(dense) + s.free.nused)), OnList(Contributed(s, donate, dense), mode))
    ensures c.(size := c.size + 1) == Add(Add(Loose(Contributed(s, donate, dense)), OnList(Contributed(s, donate, dense), mode)), rest)
  {
    hide OnList, Contributable, Loose;
    var l, o := Loose(Contributed(s, donate, dense)), OnList(Contributed(s, donate, dense), mode);
    ContributedLoose(s, donate, dense, rest);
    AddComm(l, o, rest);
    AddComm(l, rest, o);
    AddComm(rest, o, l);
  }

  lemma ContributedLoose(s: State, donate: bool, dense: bool, rest: Counts)
    requires Contributable(s, donate, dense)
    ensures Add(Loose(Contributed(s, donate, dense)), rest)
            == rest.(size := rest.size + 1, inUse := rest.inUse.With(dense, rest.inUse.At(dense) + s.free.nused))
  {
  }

  lemma DonatedAdds(s: State, mode: bool, c: Counts)
    requires s.flags.donated
    ensures Add(c, OnList(s, mode)) == c
  {
  }

  lemma ContributedHolds(views: Views, sampled: set<PageTracker>, chosen: set<PageTracker>, parked: set<PageTracker>, t: PageTracker, s: State)
    requires Holds(views, sampled, chosen) && AllIdle(parked, views) && t !in views && t !in parked
    requires exists u, donate, dense :: Contributable(u, donate, dense) && s == Contributed(u, donate, dense)
    ensures Holds(views[t := s], sampled, chosen) && AllIdle(parked, views[t := s])
  {
  }

  lemma DonatedFlag(s: State, dense: bool)
    ensures Contributed(s, true, dense).flags.donated
  {
  }

  lemma NotParked(order: seq<PageTracker>, freed: seq<PageTracker>, parked: set<PageTracker>, views: Views, b: Board, mode: bool, t: PageTracker)
    requires Kept(order, freed, parked, views, b, mode) && t !in views
    ensures t !in parked
  {
  }

  // ----- releasing -----

  lemma {:induction false} AllUnbacked(q: seq<Piece>, unback: (nat, nat) -> bool)
    ensures (forall a: nat, b: nat :: unback(a, b)) ==> Unbacked(q, unback) == PagesOf(q)
    decreases q
  {
    if q != [] { AllUnbacked(q[..|q| - 1], unback); }
  }

  lemma ReleasedSane(s: State, t: State, done: set<nat>, unbroken: bool)
    requires Sane(s) && !s.flags.collapsing && Released(s, t, done, unbroken) && Ok(t)
    ensures Sane(t)
  {
  }

  lemma ReleasedBooks(s: State, t: State, done: set<nat>, unbroken: bool, rest: Counts, c: Counts)
    requires Released(s, t, done, unbroken) && c == Add(Loose(s), rest)
    ensures c.(unmapped := c.unmapped + |done|) == Add(Loose(t), rest)
  {
  }

  lemma ReleaseStays(s: State, t: State, done: set<nat>, unbroken: bool)
    requires InUse(s) && Released(s, t, done, unbroken) && Sane(t)
    ensures InUse(Undonated(t)) && t.free.longest < PAGES
  {
    InUseBounds(s);
  }

  /** Pages of `t`, and of no other tracker, have been released. */
  ghost predicate ReleaseDone(views: Views, views': Views, t: PageTracker, done: set<nat>) {
    t in views && t in views' && views' == views[t := views'[t]] && done <= views[t].Backed() &&
    views'[t].free == views[t].free && views'[t].allocs == views[t].allocs && views'[t].released == views[t].released + done &&
    views'[t].releasedCount == views[t].releasedCount + |done| && views'[t].flags == Undonated(views[t]).flags
  }

  lemma ReleaseDoneAt(views: Views, mid: Views, parked: set<PageTracker>, sampled: set<PageTracker>, chosen: set<PageTracker>,
                      t: PageTracker, done: set<nat>, unbroken: bool)
    requires t in views && t in mid && mid == views[t := mid[t]] && Released(views[t], mid[t], done, unbroken)
    requires Holds(views, sampled, chosen) && AllIdle(parked, views) && t !in parked
    ensures var views' := mid[t := Undonated(mid[t])];
            ReleaseDone(views, views', t, done) && Holds(views', sampled, chosen) && AllIdle(parked, views')
  {
    hide Idle, State.Backed;
  }

  /** The allocation of `n` pages at `i` is gone; the tracker may no longer count as donated. */
  ghost predicate PutState(s: State, t: State, n: nat, i: nat) {
    PutBack(s, t.(flags := s.flags), n, i) && Undonated(t).flags == Undonated(s).flags
  }

  lemma PutDoneState(views: Views, views': Views, t: PageTracker, n: nat, i: nat)
    requires PutDone(views, views', t, n, i)
    ensures PutState(views[t], views'[t], n, i)
  {
  }
}

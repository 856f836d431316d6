/** Which pages of a hugepage are in use, and the longest run of free ones
    (tcmalloc/internal/range_tracker.h). A tracker is embedded by value in its owner. */
module RangeTrackers {
  import opened Arithmetic
  import opened Lists
  import opened HugePages

  const PAGES: nat := PAGES_PER_HUGE_PAGE

  predicate InRun(p: nat, i: nat, n: nat) { i <= p < i + n }

  /** The pages `i`, ..., `i + n - 1`. */
  function Run(i: nat, n: nat): set<nat> {
    set p: nat | i <= p < i + n && InRun(p, i, n)
  }

  lemma {:induction false} RunCount(i: nat, n: nat)
    ensures |Run(i, n)| == n
    decreases n
  {
    if n == 0 {
      assert Run(i, n) == {};
    } else {
      RunCount(i, n - 1);
      assert Run(i, n) == Run(i, n - 1) + {i + n - 1};
    }
  }

  /** Pages `i`, ..., `i + n - 1` exist and are not in `used`. */
  ghost predicate FreeRun(used: set<nat>, i: nat, n: nat) {
    i + n <= PAGES && Run(i, n) !! used
  }

  ghost predicate HasRun(used: set<nat>, n: nat) {
    exists i: nat :: FreeRun(used, i, n)
  }

  ghost predicate IsLongest(used: set<nat>, n: nat) {
    HasRun(used, n) && !HasRun(used, n + 1)
  }

  lemma {:induction false} HasRunLess(used: set<nat>, n: nat, k: nat)
    requires HasRun(used, n) && k <= n
    ensures HasRun(used, k)
  {
    var i: nat :| FreeRun(used, i, n);
    assert Run(i, k) <= Run(i, n);
    assert FreeRun(used, i, k);
  }

  /** A run of `k` is free exactly when `k` is at most the longest free run. */
  lemma LongestDecides(used: set<nat>, n: nat, k: nat)
    requires IsLongest(used, n)
    ensures HasRun(used, k) <==> k <= n
  {
    if k <= n {
      HasRunLess(used, n, k);
    } else if HasRun(used, k) {
      HasRunLess(used, k, n + 1);
    }
  }

  /** The length of the free run that starts at `i`. */
  function RunAt(used: set<nat>, i: nat): (n: nat)
    ensures i <= PAGES ==> i + n <= PAGES
    ensures i >= PAGES ==> n == 0
    ensures i <= PAGES ==> FreeRun(used, i, n)
    ensures i + n < PAGES ==> i + n in used
    decreases PAGES - i
  {
    if i >= PAGES || i in used then 0 else 1 + RunAt(used, i + 1)
  }

  /** The first free page at or after `i`. */
  function NextClear(used: set<nat>, i: nat): (j: nat)
    requires i <= PAGES
    ensures i <= j <= PAGES && (forall p :: i <= p < j ==> p in used) && (j < PAGES ==> j !in used)
    decreases PAGES - i
  {
    if i == PAGES || i !in used then i else NextClear(used, i + 1)
  }

  /** The first used page at or after `i`. */
  function NextSet(used: set<nat>, i: nat): (j: nat)
    requires i <= PAGES
    ensures i <= j <= PAGES && (forall p :: i <= p < j ==> p !in used) && (j < PAGES ==> j in used)
    decreases PAGES - i
  {
    if i == PAGES || i in used then i else NextSet(used, i + 1)
  }

  /** The page after the last used page at or before `i`. */
  function AfterPrevSet(used: set<nat>, i: nat): (j: nat)
    ensures j <= i + 1 && (forall p :: j <= p <= i ==> p !in used) && (j > 0 ==> j - 1 in used)
  {
    if i in used then i + 1 else if i == 0 then 0 else AfterPrevSet(used, i - 1)
  }

  datatype RangeTracker = RangeTracker(used: set<nat>, nused: nat, nallocs: nat, longest: nat) {
    ghost predicate Valid() {
      used <= Run(0, PAGES) && nused == |used| && IsLongest(used, longest)
    }
  }

  /** Nothing in use. */
  const CLEAR := RangeTracker({}, 0, 0, PAGES)

  lemma ClearValid()
    ensures CLEAR.Valid()
  {
    assert FreeRun({}, 0, PAGES);
  }

  /** All free, or all in use. */
  lemma LongestExtremes(t: RangeTracker)
    requires t.Valid()
    ensures t.longest == PAGES <==> t.used == {}
    ensures t.longest == 0 <==> t.used == Run(0, PAGES)
    ensures t.longest <= PAGES && t.nused <= PAGES && (t.used == {} <==> t.nused == 0)
  {
    RunCount(0, PAGES);
    if t.used == {} {
      assert FreeRun(t.used, 0, PAGES);
      LongestDecides(t.used, t.longest, PAGES);
    }
    if t.longest == PAGES {
      var i: nat :| FreeRun(t.used, i, PAGES);
      assert i == 0;
    }
    if p: nat :| p < PAGES && p !in t.used {
      assert FreeRun(t.used, p, 1);
      LongestDecides(t.used, t.longest, 1);
    } else {
      assert Run(0, PAGES) <= t.used;
    }
    if t.used == Run(0, PAGES) {
      LongestDecides(t.used, t.longest, 1);
      forall i: nat ensures !FreeRun(t.used, i, 1) {
        assert i in Run(i, 1);
      }
    }
    SubsetCount(t.used, Run(0, PAGES));
  }

  // ----- best fit -----

  datatype Piece = Piece(start: nat, len: nat)

  /** `p` is a free run that cannot be extended. */
  ghost predicate Maximal(used: set<nat>, p: Piece) {
    p.len > 0 && FreeRun(used, p.start, p.len) && (p.start + p.len < PAGES ==> p.start + p.len in used) &&
    (p.start > 0 ==> p.start - 1 in used)
  }

  ghost predicate Inside(p: nat, runs: seq<Piece>) {
    exists i :: 0 <= i < |runs| && InRun(p, runs[i].start, runs[i].len)
  }

  /** `runs` are the free runs below `index`, one after the other. */
  ghost predicate Scanned(used: set<nat>, runs: seq<Piece>, index: nat) {
    index <= PAGES && (0 < index < PAGES ==> index in used) &&
    (forall i :: 0 <= i < |runs| ==> Maximal(used, runs[i]) && runs[i].start + runs[i].len <= index) &&
    (forall i, j :: 0 <= i < j < |runs| ==> runs[i].start + runs[i].len <= runs[j].start) &&
    (forall p :: 0 <= p < index && p !in used ==> Inside(p, runs))
  }

  lemma ScanStep(used: set<nat>, runs: seq<Piece>, index: nat)
    requires Scanned(used, runs, index) && NextClear(used, index) < PAGES
    ensures Scanned(used, runs + [Piece(NextClear(used, index), RunAt(used, NextClear(used, index)))],
                    NextClear(used, index) + RunAt(used, NextClear(used, index)))
  {
    var j := NextClear(used, index);
    var n := RunAt(used, j);
    var more := runs + [Piece(j, n)];
    forall p | 0 <= p < j + n && p !in used ensures Inside(p, more) {
      if p < index {
        var i :| 0 <= i < |runs| && InRun(p, runs[i].start, runs[i].len);
        assert more[i] == runs[i];
      } else {
        assert InRun(p, more[|runs|].start, more[|runs|].len);
      }
    }
  }

  lemma ScanEnd(used: set<nat>, runs: seq<Piece>, index: nat)
    requires Scanned(used, runs, index) && NextClear(used, index) == PAGES
    ensures Scanned(used, runs, PAGES)
  {
  }

  /** A free window lies in one of the runs. */
  lemma WindowInPiece(used: set<nat>, runs: seq<Piece>, j: nat, k: nat) returns (i: nat)
    requires Scanned(used, runs, PAGES) && FreeRun(used, j, k) && k > 0
    ensures i < |runs| && runs[i].start <= j && j + k <= runs[i].start + runs[i].len
  {
    assert j in Run(j, k);
    i :| 0 <= i < |runs| && InRun(j, runs[i].start, runs[i].len);
    var e := runs[i].start + runs[i].len;
    assert j + k > e ==> e in Run(j, k);
  }

  /** `top` and `second` are the two greatest lengths, `a` and `b` saying where. */
  ghost predicate TopTwo(runs: seq<Piece>, top: nat, second: nat, a: nat, b: nat) {
    if runs == [] then top == 0 && second == 0
    else a < |runs| && runs[a].len == top && second <= top &&
         (forall i :: 0 <= i < |runs| && i != a ==> runs[i].len <= second) &&
         (second > 0 ==> b < |runs| && b != a && runs[b].len == second)
  }

  lemma TopTwoStep(runs: seq<Piece>, top: nat, second: nat, a: nat, b: nat, p: Piece)
      returns (top': nat, second': nat, a': nat, b': nat)
    requires TopTwo(runs, top, second, a, b) && p.len > 0
    ensures (top', second') == if p.len > top then (p.len, top) else (top, if p.len > second then p.len else second)
    ensures TopTwo(runs + [p], top', second', a', b')
  {
    if p.len > top {
      top', second', a', b' := p.len, top, |runs|, a;
    } else if p.len > second {
      top', second', a', b' := top, p.len, a, |runs|;
    } else {
      top', second', a', b' := top, second, a, b;
    }
  }

  /** Apart from the `k`-th run, nothing is longer than this, and something is that long. */
  ghost function OthersTop(runs: seq<Piece>, top: nat, second: nat, k: nat): nat
    requires k < |runs|
  {
    if runs[k].len == top then second else top
  }

  lemma OthersBound(runs: seq<Piece>, top: nat, second: nat, a: nat, b: nat, k: nat) returns (w: nat)
    requires TopTwo(runs, top, second, a, b) && k < |runs|
    ensures forall i :: 0 <= i < |runs| && i != k ==> runs[i].len <= OthersTop(runs, top, second, k)
    ensures OthersTop(runs, top, second, k) > 0 ==> w < |runs| && w != k && runs[w].len == OthersTop(runs, top, second, k)
  {
    w := if k == a then b else a;
  }

  /** A window that is free after marking the front `n` pages of the `k`-th run. */
  lemma MarkedWindow(used: set<nat>, runs: seq<Piece>, top: nat, second: nat, a: nat, b: nat, k: nat, n: nat, j: nat, m: nat)
    requires Scanned(used, runs, PAGES) && TopTwo(runs, top, second, a, b) && k < |runs| && 0 < n <= runs[k].len
    requires FreeRun(used + Run(runs[k].start, n), j, m) && m > 0
    ensures m <= Most(runs[k].len - n, OthersTop(runs, top, second, k))
  {
    assert FreeRun(used, j, m);
    var w := OthersBound(runs, top, second, a, b, k);
    var i := WindowInPiece(used, runs, j, m);
    assert j in Run(j, m);
    assert j !in Run(runs[k].start, n);
  }

  /** Marking the front `n` pages of the `k`-th run leaves `n` fewer there and does not
      touch the others. */
  lemma MarkedLongest(used: set<nat>, runs: seq<Piece>, top: nat, second: nat, a: nat, b: nat, k: nat, n: nat)
    requires Scanned(used, runs, PAGES) && TopTwo(runs, top, second, a, b) && k < |runs| && 0 < n <= runs[k].len
    ensures runs[k].len <= top
    ensures IsLongest(used + Run(runs[k].start, n), Most(runs[k].len - n, OthersTop(runs, top, second, k)))
  {
    var used', rest, others := used + Run(runs[k].start, n), runs[k].len - n, OthersTop(runs, top, second, k);
    var w := OthersBound(runs, top, second, a, b, k);
    var longest := Most(rest, others);
    if longest == rest {
      assert FreeRun(used', runs[k].start + n, rest);
    } else {
      assert FreeRun(used', runs[w].start, others);
    }
    if HasRun(used', longest + 1) {
      var j: nat :| FreeRun(used', j, longest + 1);
      MarkedWindow(used, runs, top, second, a, b, k, n, j, longest + 1);
    }
  }

  /** Mark `n` pages at the front of a shortest free run that has them. */
  method FindAndMark(t: RangeTracker, n: nat) returns (t': RangeTracker, index: nat)
    requires t.Valid() && 0 < n <= t.longest
    ensures t'.Valid() && t'.used == t.used + Run(index, n) && t'.nallocs == t.nallocs + 1
    ensures FreeRun(t.used, index, n) && (index > 0 ==> index - 1 in t.used)
    ensures forall j: nat :: (j == 0 || j - 1 in t.used) && RunAt(t.used, j) >= n ==> RunAt(t.used, index) <= RunAt(t.used, j)
  {
    hide Scanned, TopTwo, BestSoFar, FreeRun, IsLongest, RunAt, NextClear;
    var longest: nat, second: nat, bestIndex: nat, bestLen: nat := 0, 0, PAGES, 2 * PAGES;
    var i: nat := 0;
    ghost var runs: seq<Piece>, a: nat, b: nat, k: nat := [], 0, 0, 0;
    ScanStart(t.used, n, bestIndex);
    while NextClear(t.used, i) < PAGES
      invariant i <= PAGES && Scanned(t.used, runs, i) && TopTwo(runs, longest, second, a, b)
      invariant BestSoFar(runs, n, bestIndex, bestLen, k)
      decreases PAGES - i
    {
      ScanStep(t.used, runs, i);
      i := NextClear(t.used, i);
      var len := RunAt(t.used, i);
      ghost var x, y;
      x, y, a, b := TopTwoStep(runs, longest, second, a, b, Piece(i, len));
      if len > longest {
        second := longest;
        longest := len;
      } else if len > second {
        second := len;
      }
      k := BestStep(runs, n, bestIndex, bestLen, k, Piece(i, len));
      if len >= n && len < bestLen {
        bestIndex, bestLen := i, len;
      }
      runs := runs + [Piece(i, len)];
      i := i + len;
    }
    ScanEnd(t.used, runs, i);
    FoundFit(t, runs, n, bestIndex, bestLen, k);
    MarkedLongest(t.used, runs, longest, second, a, b, k, n);
    if bestLen == longest {
      longest := longest - n;
      if longest < second { longest := second; }
    }
    MarkedValid(t, bestIndex, n, longest);
    index := bestIndex;
    t' := RangeTracker(t.used + Run(index, n), t.nused + n, t.nallocs + 1, longest);
    BestOverall(t.used, runs, n, bestIndex, bestLen, k);
  }

  lemma MarkedValid(t: RangeTracker, index: nat, n: nat, longest: nat)
    requires t.Valid() && FreeRun(t.used, index, n) && IsLongest(t.used + Run(index, n), longest)
    ensures RangeTracker(t.used + Run(index, n), t.nused + n, t.nallocs + 1, longest).Valid()
  {
    RunCount(index, n);
  }

  ghost predicate BestSoFar(runs: seq<Piece>, n: nat, bestIndex: nat, bestLen: nat, k: nat) {
    (forall i :: 0 <= i < |runs| && runs[i].len >= n ==> bestLen <= runs[i].len) &&
    (if bestLen == 2 * PAGES then forall i :: 0 <= i < |runs| ==> runs[i].len < n
     else k < |runs| && runs[k] == Piece(bestIndex, bestLen) && bestLen >= n)
  }

  lemma ScanStart(used: set<nat>, n: nat, bestIndex: nat)
    ensures Scanned(used, [], 0) && TopTwo([], 0, 0, 0, 0) && BestSoFar([], n, bestIndex, 2 * PAGES, 0)
  {
  }

  lemma BestStep(runs: seq<Piece>, n: nat, bestIndex: nat, bestLen: nat, k: nat, p: Piece) returns (k': nat)
    requires BestSoFar(runs, n, bestIndex, bestLen, k) && p.len <= PAGES
    ensures if p.len >= n && p.len < bestLen then BestSoFar(runs + [p], n, p.start, p.len, k')
            else BestSoFar(runs + [p], n, bestIndex, bestLen, k')
  {
    k' := if p.len >= n && p.len < bestLen then |runs| else k;
  }

  lemma FoundFit(t: RangeTracker, runs: seq<Piece>, n: nat, bestIndex: nat, bestLen: nat, k: nat)
    requires t.Valid() && 0 < n <= t.longest && Scanned(t.used, runs, PAGES) && BestSoFar(runs, n, bestIndex, bestLen, k)
    ensures k < |runs| && runs[k] == Piece(bestIndex, bestLen) && bestLen >= n
    ensures FreeRun(t.used, bestIndex, n) && (bestIndex > 0 ==> bestIndex - 1 in t.used)
  {
    LongestDecides(t.used, t.longest, n);
    var j: nat :| FreeRun(t.used, j, n);
    var i := WindowInPiece(t.used, runs, j, n);
  }

  lemma BestOverall(used: set<nat>, runs: seq<Piece>, n: nat, bestIndex: nat, bestLen: nat, k: nat)
    requires Scanned(used, runs, PAGES) && BestSoFar(runs, n, bestIndex, bestLen, k) && n > 0
    requires k < |runs| && runs[k] == Piece(bestIndex, bestLen)
    ensures forall j: nat :: (j == 0 || j - 1 in used) && RunAt(used, j) >= n ==> RunAt(used, bestIndex) <= RunAt(used, j)
  {
    hide RunAt, FreeRun, BestSoFar;
    MaximalRunAt(used, runs[k]);
    forall j: nat | (j == 0 || j - 1 in used) && RunAt(used, j) >= n ensures bestLen <= RunAt(used, j) {
      BestOne(used, runs, n, bestIndex, bestLen, k, j);
    }
  }

  lemma BestOne(used: set<nat>, runs: seq<Piece>, n: nat, bestIndex: nat, bestLen: nat, k: nat, j: nat)
    requires Scanned(used, runs, PAGES) && BestSoFar(runs, n, bestIndex, bestLen, k) && n > 0
    requires (j == 0 || j - 1 in used) && RunAt(used, j) >= n
    ensures bestLen <= RunAt(used, j)
  {
    hide RunAt;
    var m := RunAt(used, j);
    var i := WindowInPiece(used, runs, j, m);
    var start, len := runs[i].start, runs[i].len;
    assert j > start ==> j - 1 in Run(start, len);
    MaximalRunAt(used, runs[i]);
  }

  lemma MaximalRunAt(used: set<nat>, p: Piece)
    requires Maximal(used, p)
    ensures RunAt(used, p.start) == p.len
  {
    var m := RunAt(used, p.start);
    assert m < p.len ==> p.start + m in Run(p.start, p.len);
  }

  /** Free the pages `index`, ..., `index + n - 1`. */
  method Unmark(t: RangeTracker, index: nat, n: nat) returns (t': RangeTracker)
    requires t.Valid() && n > 0 && index + n <= PAGES && Run(index, n) <= t.used && t.nallocs > 0
    ensures t'.Valid() && t'.used == t.used - Run(index, n) && t'.nallocs == t.nallocs - 1
  {
    var used := t.used - Run(index, n);
    RunCount(index, n);
    SubsetCount(Run(index, n), t.used);
    var lim := NextSet(used, index + n - 1);
    var start := AfterPrevSet(used, index);
    var longest := if lim - start > t.longest then lim - start else t.longest;
    UnmarkedLongest(t.used, t.longest, index, n, start, lim);
    t' := RangeTracker(used, t.nused - n, t.nallocs - 1, longest);
  }

  lemma UnmarkedLongest(used: set<nat>, longest: nat, index: nat, n: nat, start: nat, lim: nat)
    requires IsLongest(used, longest) && n > 0 && index + n <= PAGES && Run(index, n) <= used
    requires lim == NextSet(used - Run(index, n), index + n - 1) && start == AfterPrevSet(used - Run(index, n), index)
    ensures start <= index && index + n <= lim && IsLongest(used - Run(index, n), Most(lim - start, longest))
  {
    var used' := used - Run(index, n);
    assert index in Run(index, n) && index + n - 1 in Run(index, n);
    assert FreeRun(used', start, lim - start);
    var i: nat :| FreeRun(used, i, longest);
    assert FreeRun(used', i, longest);
    if HasRun(used', Most(lim - start, longest) + 1) {
      var j: nat :| FreeRun(used', j, Most(lim - start, longest) + 1);
      UnmarkedWindow(used, longest, index, n, start, lim, j, Most(lim - start, longest) + 1);
    }
  }

  lemma UnmarkedWindow(used: set<nat>, longest: nat, index: nat, n: nat, start: nat, lim: nat, j: nat, m: nat)
    requires IsLongest(used, longest) && n > 0 && index + n <= PAGES && Run(index, n) <= used
    requires lim == NextSet(used - Run(index, n), index + n - 1) && start == AfterPrevSet(used - Run(index, n), index)
    requires start <= index && index + n <= lim && FreeRun(used - Run(index, n), j, m) && m > 0
    ensures m <= Most(lim - start, longest)
  {
    if Run(j, m) !! Run(index, n) {
      assert FreeRun(used, j, m);
      LongestDecides(used, longest, m);
    } else {
      assert j < start ==> start - 1 in Run(j, m);
      assert lim < j + m ==> lim in Run(j, m);
    }
  }
}

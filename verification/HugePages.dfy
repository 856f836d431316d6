/** Ranges of hugepages (tcmalloc/huge_pages.h) and the sets of hugepage
    numbers they stand for. */
module HugePages {

  /** A run of `len` hugepages starting at hugepage number `start`. */
  datatype HugeRange = HugeRange(start: nat, len: nat) {
    function End(): nat { start + len }

    /** Any range starting at hugepage 0 is the "no range" answer. */
    predicate Valid() { start != 0 }

    predicate Contains(p: int) { p >= start && p - start < len }

    predicate Intersects(r: HugeRange) { r.Contains(start) || Contains(r.start) }

    predicate Precedes(r: HugeRange) { End() == r.start }
  }

  const NIL := HugeRange(0, 0)

  /** The hugepages a range stands for. */
  ghost function Pages(r: HugeRange): set<int> {
    set p: int | r.start <= p < r.start + r.len && r.Contains(p)
  }

  /** On non-empty ranges the two-point test of `Intersects` is exactly overlap. */
  lemma IntersectsIsOverlap(a: HugeRange, b: HugeRange)
    requires a.len > 0 && b.len > 0
    ensures a.Intersects(b) <==> !(Pages(a) !! Pages(b))
  {
    if a.Intersects(b) {
      if b.Contains(a.start) {
        assert a.start in Pages(a) && a.start in Pages(b);
      } else {
        assert b.start in Pages(a) && b.start in Pages(b);
      }
    }
  }

  lemma {:induction false} PagesCount(r: HugeRange)
    ensures |Pages(r)| == r.len
    decreases r.len
  {
    if r.len == 0 {
      assert Pages(r) == {};
    } else {
      var q := HugeRange(r.start, r.len - 1);
      PagesCount(q);
      assert Pages(r) == Pages(q) + {r.start + r.len - 1};
    }
  }

  /** Glue two adjacent ranges together. */
  function Join(a: HugeRange, b: HugeRange): (r: HugeRange)
    requires a.Precedes(b)
    ensures Pages(r) == Pages(a) + Pages(b)
    ensures Pages(a) !! Pages(b)
  {
    HugeRange(a.start, a.len + b.len)
  }

  /** Cut `n` hugepages off the front; the rest is `NIL` when nothing is left. */
  function Split(r: HugeRange, n: nat): (s: (HugeRange, HugeRange))
    requires n <= r.len
    ensures s.0.len == n && s.0.len + s.1.len == r.len
    ensures Pages(s.0) + Pages(s.1) == Pages(r) && Pages(s.0) !! Pages(s.1)
    ensures s.1.len > 0 ==> s.0.Precedes(s.1)
    ensures r.Valid() ==> s.0.Valid() && (s.1.Valid() <==> n < r.len)
  {
    if r.len > n then
      (HugeRange(r.start, n), HugeRange(r.start + n, r.len - n))
    else
      (r, NIL)
  }

  /** Small pages in one hugepage, for 2 MiB hugepages and 8 KiB pages. */
  const PAGES_PER_HUGE_PAGE: nat := 256

  /** The number of hugepages needed to hold `pages` small pages. */
  function HugeLengthFromPages(pages: nat): (n: nat)
    ensures pages <= n * PAGES_PER_HUGE_PAGE < pages + PAGES_PER_HUGE_PAGE
  {
    pages / PAGES_PER_HUGE_PAGE + (if pages % PAGES_PER_HUGE_PAGE != 0 then 1 else 0)
  }

  // ----- sequences of ranges in address order -----

  /** Non-empty ranges in address order with a gap between any two neighbours. */
  ghost predicate Separated(s: seq<HugeRange>) {
    (forall i :: 0 <= i < |s| ==> s[i].len > 0) &&
    (forall i, j :: 0 <= i < j < |s| ==> s[i].End() < s[j].start)
  }

  /** The hugepages of all the ranges together. */
  ghost function Covered(s: seq<HugeRange>): set<int> {
    if s == [] then {} else Pages(s[0]) + Covered(s[1..])
  }

  ghost function TotalLen(s: seq<HugeRange>): nat {
    if s == [] then 0 else s[0].len + TotalLen(s[1..])
  }

  lemma {:induction false} CoveredConcat(a: seq<HugeRange>, b: seq<HugeRange>)
    ensures Covered(a + b) == Covered(a) + Covered(b)
    ensures TotalLen(a + b) == TotalLen(a) + TotalLen(b)
    decreases |a|
  {
    if a == [] {
      assert a + b == b;
    } else {
      CoveredConcat(a[1..], b);
      assert (a + b)[1..] == a[1..] + b;
    }
  }

  lemma {:induction false} CoveredMember(s: seq<HugeRange>, p: int)
    ensures p in Covered(s) <==> exists i :: 0 <= i < |s| && s[i].Contains(p)
    decreases |s|
  {
    if s != [] {
      CoveredMember(s[1..], p);
      if s[0].Contains(p) {
        assert p in Pages(s[0]);
      } else if p in Covered(s[1..]) {
        var i :| 0 <= i < |s[1..]| && s[1..][i].Contains(p);
        assert s[i + 1].Contains(p);
      }
    }
  }

  /** The ranges of a separated sequence are disjoint, so their lengths add up
      to the number of hugepages covered. */
  lemma {:induction false} CoveredCount(s: seq<HugeRange>)
    requires Separated(s)
    ensures |Covered(s)| == TotalLen(s)
    decreases |s|
  {
    if s != [] {
      CoveredCount(s[1..]);
      PagesCount(s[0]);
      forall p | p in Pages(s[0]) ensures p !in Covered(s[1..]) {
        CoveredMember(s[1..], p);
      }
    }
  }

  /** A set of hugepages has exactly one separated description. */
  lemma {:induction false} SeparatedUnique(a: seq<HugeRange>, b: seq<HugeRange>)
    requires Separated(a) && Separated(b) && Covered(a) == Covered(b)
    ensures a == b
    decreases |a|
  {
    assert a != [] ==> a[0].start in Pages(a[0]);
    assert b != [] ==> b[0].start in Pages(b[0]);
    if a != [] && b != [] {
      FirstDetermined(a, b);
      FirstDetermined(b, a);
      RestDetermined(a);
      RestDetermined(b);
      SeparatedUnique(a[1..], b[1..]);
      assert a == [a[0]] + a[1..] && b == [b[0]] + b[1..];
    }
  }

  lemma {:induction false} FirstDetermined(a: seq<HugeRange>, b: seq<HugeRange>)
    requires Separated(a) && Separated(b) && a != [] && b != [] && Covered(a) == Covered(b)
    ensures a[0].start >= b[0].start
    ensures a[0].start == b[0].start ==> a[0].len <= b[0].len
  {
    assert a[0].start in Pages(a[0]);
    CoveredMember(b, a[0].start);
    if a[0].start == b[0].start && a[0].len > b[0].len {
      var p := b[0].End();
      assert p in Pages(a[0]);
      CoveredMember(b, p);
    }
  }

  lemma {:induction false} RestDetermined(a: seq<HugeRange>)
    requires Separated(a) && a != []
    ensures Covered(a[1..]) == Covered(a) - Pages(a[0])
  {
    forall p | p in Pages(a[0]) ensures p !in Covered(a[1..]) {
      CoveredMember(a[1..], p);
    }
  }
}

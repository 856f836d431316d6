/** Every sequence of requests to the page heap. */
module PageHeapRuns {
  import opened HugePages
  import opened Allocator
  import opened Cache
  import opened RangeTrackers
  import opened FillerLists
  import opened Filler
  import opened PageHeapBooks
  import opened PageHeap

  /** What a caller keeps about pages it got. */
  datatype Span = Span(p: nat, n: nat, donated: bool)

  datatype Request =
    | Ask(id: nat, n: nat, align: nat, dense: bool, os: HugeRange, dip: nat)
    | Free(id: nat, env: Env)
    | Release(n: nat, min: nat, unback: (nat, nat) -> bool, unbackPart: (nat, nat, nat) -> bool)
    | ReleaseGently(n: nat, min: nat, unback: (nat, nat) -> bool, subrelease: bool, all: bool, releasePartial: bool, partial: nat, skip: bool,
                    reduced: nat, unbackPart: (nat, nat, nat) -> bool)

  ghost predicate IsSpan(a: Alloc, s: Span) { a.p == s.p && a.n == s.n && a.donated == s.donated }

  ghost predicate Lives(s: Span, live: seq<Alloc>) { exists k :: 0 <= k < |live| && IsSpan(live[k], s) }

  ghost predicate Apart(s: Span, t: Span) { s.p + s.n <= t.p || t.p + t.n <= s.p }

  /** The spans callers have are the live allocations. */
  ghost predicate Held(spans: map<nat, Span>, live: seq<Alloc>) {
    |spans| == |live| &&
    (forall i :: i in spans ==> Lives(spans[i], live)) &&
    (forall i, j :: i in spans && j in spans && i != j ==> spans[i].p != spans[j].p)
  }

  lemma HeldMore(spans: map<nat, Span>, live: seq<Alloc>, id: nat, s: Span, a: Alloc)
    requires Held(spans, live) && id !in spans && IsSpan(a, s) && forall k :: 0 <= k < |live| ==> live[k].p != s.p
    ensures Held(spans[id := s], [a] + live)
  {
    var spans', more := spans[id := s], [a] + live;
    assert spans'.Keys == spans.Keys + {id};
    assert |spans'| == |spans'.Keys| && |spans| == |spans.Keys|;
    hide IsSpan, Lives;
    LivesMore(spans, live, a, s);
  }

  lemma LivesMore(spans: map<nat, Span>, live: seq<Alloc>, a: Alloc, s: Span)
    requires IsSpan(a, s) && forall i :: i in spans ==> Lives(spans[i], live)
    ensures Lives(s, [a] + live) && forall i :: i in spans ==> Lives(spans[i], [a] + live) && exists k :: 0 <= k < |live| && spans[i].p == live[k].p
  {
    var more := [a] + live;
    assert IsSpan(more[0], s);
    forall i | i in spans ensures Lives(spans[i], more) && exists k :: 0 <= k < |live| && spans[i].p == live[k].p {
      var k :| 0 <= k < |live| && IsSpan(live[k], spans[i]);
      assert IsSpan(more[k + 1], spans[i]);
    }
  }

  lemma HeldLess(spans: map<nat, Span>, live: seq<Alloc>, id: nat, k: nat)
    requires Held(spans, live) && id in spans && k < |live| && IsSpan(live[k], spans[id])
    ensures Held(spans - {id}, Drop(live, k))
  {
    var spans', rest := spans - {id}, Drop(live, k);
    assert spans'.Keys == spans.Keys - {id};
    assert |spans'| == |spans'.Keys| && |spans| == |spans.Keys|;
    forall i | i in spans' ensures Lives(spans'[i], rest) {
      var j :| 0 <= j < |live| && IsSpan(live[j], spans[i]);
      assert j != k;
      assert IsSpan(rest[if j < k then j else j - 1], spans'[i]);
    }
  }

  ghost function OfferOf(r: Request): Offer { if r.Ask? then Offer(r.os, HugeLengthFromPages(r.n)) else Offer(NIL, 0) }

  ghost function Offers(requests: seq<Request>): seq<Offer> { seq(|requests|, i requires 0 <= i < |requests| => OfferOf(requests[i])) }

  lemma OffersNext(requests: seq<Request>, system: set<int>)
    requires requests != [] && Honest(Offers(requests), system)
    ensures Offers(requests) != [] && Offers(requests)[0] == OfferOf(requests[0]) && Offers(requests)[1..] == Offers(requests[1..])
    ensures requests[0].Ask? && requests[0].os.Valid() ==>
              requests[0].os.len >= HugeLengthFromPages(requests[0].n) && Pages(requests[0].os) !! system
  {
    assert Offers(requests)[0] == OfferOf(requests[0]);
  }

  lemma Grown(r: Request, system: set<int>, system': set<int>)
    requires system' == system || (r.Ask? && SystemGrew(system, system', r.os))
    ensures system' == system || (OfferOf(r).os.Valid() && system' == system + Pages(OfferOf(r).os))
  {
  }

  /** Pages are asked for; no part of a densely accessed span may be donated. */
  method AskStep(h: HugePageAwareAllocator, id: nat, n: nat, align: nat, dense: bool, os: HugeRange, dip: nat, spans: map<nat, Span>)
    returns (spans': map<nat, Span>)
    requires h.Valid() && Held(spans, h.live)
    requires os.Valid() ==> os.len >= HugeLengthFromPages(n) && Pages(os) !! h.cache.allocator.system
    modifies h, h.filler, h.filler.lists.Values, h.filler.views.Keys
    modifies h.cache, h.cache.cache, h.cache.allocator, h.cache.allocator.free, h.cache.Mem()
    ensures h.Valid() && Held(spans', h.live)
    ensures fresh(h.cache.Mem() - old(h.cache.Mem())) && fresh(h.filler.views.Keys - old(h.filler.views.Keys))
    ensures h.cache.allocator.system == old(h.cache.allocator.system) || SystemGrew(old(h.cache.allocator.system), h.cache.allocator.system, os)
  {
    var possible := id !in spans && n > 0 && align <= PAGES && (dense ==> n % PAGES == 0 || (n == 1 && align <= 1));
    hide *;
    spans' := spans;
    if !possible { return; }
    ghost var live := h.live;
    var page, ok, fromReleased, donated, a := h.NewAligned(n, align, dense, os, dip);
    if ok {
      spans' := spans[id := Span(page, n, donated)];
      StartsApart(h, live, a);
      SpanOf(a, Span(page, n, donated));
      HeldMore(spans, live, id, Span(page, n, donated), a);
    }
  }

  /** One request; one that is not possible changes nothing. */
  method Step(h: HugePageAwareAllocator, r: Request, spans: map<nat, Span>) returns (spans': map<nat, Span>)
    requires h.Valid() && Held(spans, h.live)
    requires r.Ask? && r.os.Valid() ==> r.os.len >= HugeLengthFromPages(r.n) && Pages(r.os) !! h.cache.allocator.system
    modifies h, h.filler, h.filler.lists.Values, h.filler.views.Keys
    modifies h.cache, h.cache.cache, h.cache.allocator, h.cache.allocator.free, h.cache.Mem()
    ensures h.Valid() && Held(spans', h.live)
    ensures fresh(h.cache.Mem() - old(h.cache.Mem())) && fresh(h.filler.views.Keys - old(h.filler.views.Keys))
    ensures h.cache.allocator.system == old(h.cache.allocator.system) ||
            (r.Ask? && SystemGrew(old(h.cache.allocator.system), h.cache.allocator.system, r.os))
  {
    hide *;
    spans' := spans;
    match r {
      case Ask(id, n, align, dense, os, dip) =>
        spans' := AskStep(h, id, n, align, dense, os, dip, spans);
      case Free(id, env) =>
        if id !in spans { return; }
        ghost var live := h.live;
        ghost var k := Find(spans, live, id);
        h.Delete(spans[id].p, spans[id].n, spans[id].donated, env, k);
        HeldLess(spans, live, id, k);
        spans' := spans - {id};
      case Release(n, min, unback, unbackPart) =>
        var released := h.ReleaseAtLeastNPagesBreakingHugepages(n, min, unback, unbackPart, false);
      case ReleaseGently(n, min, unback, subrelease, all, releasePartial, partial, skip, reduced, unbackPart) =>
        if n > MAX_LENGTH { return; }
        var released := h.ReleaseAtLeastNPages(n, min, unback, subrelease, all, releasePartial, partial, skip, reduced, unbackPart, false);
    }
  }

  lemma SpanOf(a: Alloc, s: Span)
    requires a.p == s.p && a.n == s.n && a.donated == s.donated
    ensures IsSpan(a, s)
  {
  }

  lemma Find(spans: map<nat, Span>, live: seq<Alloc>, id: nat) returns (k: nat)
    requires Held(spans, live) && id in spans
    ensures k < |live| && IsSpan(live[k], spans[id]) && live[k].p == spans[id].p && live[k].n == spans[id].n && live[k].donated == spans[id].donated
  {
    assert Lives(spans[id], live);
    k :| k < |live| && IsSpan(live[k], spans[id]);
  }

  lemma StartsApart(h: HugePageAwareAllocator, live: seq<Alloc>, a: Alloc)
    requires h.Valid() && h.live == [a] + live && a.n > 0
    ensures forall k :: 0 <= k < |live| ==> live[k].p != a.p
  {
    hide *;
    forall k | 0 <= k < |live| ensures live[k].p != a.p {
      assert h.live[k + 1] == live[k] && h.live[0] == a;
      h.NoOverlap(0, k + 1, a.p);
      h.LivePages(k + 1);
    }
  }

  /** After any sequence of requests no page belongs to two spans, and the pages from the
      system are in spans, free, or unmapped. */
  method Run(h: HugePageAwareAllocator, requests: seq<Request>, spans: map<nat, Span>) returns (spans': map<nat, Span>)
    requires h.Valid() && Held(spans, h.live) && Honest(Offers(requests), h.cache.allocator.system)
    modifies h, h.filler, h.filler.lists.Values, h.filler.views.Keys
    modifies h.cache, h.cache.cache, h.cache.allocator, h.cache.allocator.free, h.cache.Mem()
    ensures h.Valid() && Held(spans', h.live)
    ensures forall i, j :: i in spans' && j in spans' && i != j ==> Apart(spans'[i], spans'[j])
    decreases requests
  {
    hide *;
    if requests == [] {
      SpansApart(h, spans);
      return spans;
    }
    OffersNext(requests, h.cache.allocator.system);
    var s := Step(h, requests[0], spans);
    Grown(requests[0], old(h.cache.allocator.system), h.cache.allocator.system);
    HonestNext(Offers(requests), old(h.cache.allocator.system), h.cache.allocator.system);
    spans' := Run(h, requests[1..], s);
  }

  lemma SpansApart(h: HugePageAwareAllocator, spans: map<nat, Span>)
    requires h.Valid() && Held(spans, h.live)
    ensures forall i, j :: i in spans && j in spans && i != j ==> Apart(spans[i], spans[j])
  {
    hide HugePageAwareAllocator.Valid, IsSpan;
    forall i, j | i in spans && j in spans && i != j ensures Apart(spans[i], spans[j]) {
      var k := Find(spans, h.live, i);
      var m := Find(spans, h.live, j);
      h.LivePages(k);
      h.LivePages(m);
      var q := if spans[i].p < spans[j].p then spans[j].p else spans[i].p;
      if spans[i].p <= q < spans[i].p + spans[i].n { h.NoOverlap(k, m, q); }
    }
  }
}

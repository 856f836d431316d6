/** Runs of the hugepage cache in which any number of threads get, release and
    shrink at the same time. A step is one stretch of holding the page heap lock. */
module CacheRuns {
  import opened HugePages
  import opened AddressMap
  import opened Allocator
  import opened Cache

  datatype Step =
    | Get(id: nat, n: nat, os: HugeRange, dip: nat)     // serve a request; the caller names the range `id`
    | Cut(id: nat, other: nat, n: nat)                  // the caller treats its range as two
    | Fill(id: nat)                                     // Release, up to the point where it shrinks
    | Unbacked(id: nat)                                 // ReleaseUnbacked
    | Lower(min: nat)                                   // the limit goes down
    | Begin(thread: nat, target: nat)                   // a thread shrinks, and drops the lock
    | End(thread: nat, success: bool)                   // the thread has the lock back

  /** The hugepages of the named ranges. */
  ghost function Gather(m: map<nat, HugeRange>): set<int> {
    set k, p | k in m && p in Pages(m[k]) :: p
  }

  /** The named ranges are disjoint and make up `s`. */
  ghost predicate Owns(m: map<nat, HugeRange>, s: set<int>) {
    (forall k :: k in m ==> m[k].len > 0) && s == Gather(m) &&
    (forall j, k :: j in m && k in m && j != k ==> Pages(m[j]) !! Pages(m[k]))
  }

  lemma OwnsAdd(m: map<nat, HugeRange>, s: set<int>, k: nat, r: HugeRange)
    requires Owns(m, s) && k !in m && r.len > 0 && Pages(r) !! s
    ensures Owns(m[k := r], s + Pages(r))
  {
    hide Pages;
    var m' := m[k := r];
    forall p | p in s + Pages(r) ensures p in Gather(m') {
      if p in s {
        var j :| j in m && p in Pages(m[j]);
        assert p in Pages(m'[j]);
      } else {
        assert p in Pages(m'[k]);
      }
    }
  }

  lemma OwnsDrop(m: map<nat, HugeRange>, s: set<int>, k: nat)
    requires Owns(m, s) && k in m
    ensures Owns(m - {k}, s - Pages(m[k]))
  {
    hide Pages;
    var m' := m - {k};
    forall p | p in s - Pages(m[k]) ensures p in Gather(m') {
      var j :| j in m && p in Pages(m[j]);
      assert p in Pages(m'[j]);
    }
  }

  lemma OwnsCut(m: map<nat, HugeRange>, s: set<int>, k: nat, j: nat, n: nat)
    requires Owns(m, s) && k in m && j !in m && 0 < n < m[k].len
    ensures Owns((m - {k})[k := Split(m[k], n).0][j := Split(m[k], n).1], s)
  {
    var parts := Split(m[k], n);
    OwnsDrop(m, s, k);
    OwnsAdd(m - {k}, s - Pages(m[k]), k, parts.0);
    OwnsAdd((m - {k})[k := parts.0], s - Pages(m[k]) + Pages(parts.0), j, parts.1);
    assert s - Pages(m[k]) + Pages(parts.0) + Pages(parts.1) == s;
  }

  ghost function OfferOf(step: Step): Offer { if step.Get? then Offer(step.os, step.n) else Offer(NIL, 0) }

  ghost function Offers(steps: seq<Step>): seq<Offer> { seq(|steps|, i requires 0 <= i < |steps| => OfferOf(steps[i])) }

  lemma OffersNext(steps: seq<Step>)
    requires steps != []
    ensures Offers(steps) != [] && Offers(steps)[0] == OfferOf(steps[0]) && Offers(steps)[1..] == Offers(steps[1..])
  {
  }

  /** The state between steps: a valid cache, the ranges its callers hold, and the
      ranges that threads in the middle of shrinking are unbacking. */
  ghost predicate Consistent(c: HugeCache, owned: map<nat, HugeRange>, flying: map<nat, HugeRange>)
    reads c, c.cache, c.cache.links.Keys, c.allocator, c.allocator.free, c.allocator.free.links.Keys
  {
    c.Valid() && Owns(owned, c.user) && Owns(flying, c.unbacking)
  }

  /** A step of a caller; one that is not possible changes nothing. */
  method CallerStep(c: HugeCache, step: Step, owned: map<nat, HugeRange>, ghost flying: map<nat, HugeRange>)
    returns (owned': map<nat, HugeRange>)
    requires Consistent(c, owned, flying) && Honest([OfferOf(step)], c.allocator.system)
    modifies c, c.cache, c.allocator, c.allocator.free, c.Mem()
    ensures Consistent(c, owned', flying) && fresh(c.Mem() - old(c.Mem()))
    ensures c.allocator.system == old(c.allocator.system) ||
            (step.Get? && step.os.Valid() && c.allocator.system == old(c.allocator.system) + Pages(step.os))
  {
    hide HugeCache.Valid, Owns, Pages;
    owned' := owned;
    match step {
      case Get(id, n, os, dip) =>
        assert [OfferOf(step)][0] == Offer(os, n);
        if n > 0 && id !in owned {
          var r, fromReleased := c.Get(n, os, dip);
          NilPages();
          if r.Valid() {
            OwnsAdd(owned, old(c.user), id, r);
            owned' := owned[id := r];
          } else {
            assert old(c.user) + {} == old(c.user);
          }
        }
      case Cut(id, other, n) =>
        if id in owned && other !in owned && 0 < n < owned[id].len {
          OwnsCut(owned, c.user, id, other, n);
          var parts := Split(owned[id], n);
          owned' := (owned - {id})[id := parts.0][other := parts.1];
        }
      case Fill(id) =>
        if id in owned {
          OwnsRange(owned, c.user, id);
          OwnsDrop(owned, c.user, id);
          c.Fill(owned[id]);
          owned' := owned - {id};
        }
      case Unbacked(id) =>
        if id in owned {
          OwnsRange(owned, c.user, id);
          OwnsDrop(owned, c.user, id);
          c.ReleaseUnbacked(owned[id]);
          owned' := owned - {id};
        }
      case _ =>
    }
  }

  lemma OwnsRange(m: map<nat, HugeRange>, s: set<int>, k: nat)
    requires Owns(m, s) && k in m
    ensures m[k].len > 0 && Pages(m[k]) <= s
  {
  }

  /** A step of a thread that shrinks the cache. */
  method ShrinkStep(c: HugeCache, step: Step, ghost owned: map<nat, HugeRange>, flying: map<nat, HugeRange>)
    returns (flying': map<nat, HugeRange>)
    requires Consistent(c, owned, flying)
    modifies c, c.cache, c.allocator, c.allocator.free, c.Mem()
    ensures Consistent(c, owned, flying') && fresh(c.Mem() - old(c.Mem())) && c.allocator.system == old(c.allocator.system)
  {
    hide HugeCache.Valid, Owns, Pages;
    flying' := flying;
    match step {
      case Lower(min) =>
        var lowered := c.LowerLimit(min);
      case Begin(thread, target) =>
        if thread !in flying && c.size > target {
          var r := c.BeginUnback(target);
          OwnsAdd(flying, old(c.unbacking), thread, r);
          flying' := flying[thread := r];
        }
      case End(thread, success) =>
        if thread in flying {
          OwnsRange(flying, c.unbacking, thread);
          OwnsDrop(flying, c.unbacking, thread);
          c.EndUnback(flying[thread], success);
          flying' := flying - {thread};
        }
      case _ =>
    }
  }

  /** However the steps of the threads are interleaved, the cache is consistent after
      every one of them (every prefix of a run is a run). */
  method Run(c: HugeCache, steps: seq<Step>, owned: map<nat, HugeRange>, flying: map<nat, HugeRange>)
    returns (owned': map<nat, HugeRange>, flying': map<nat, HugeRange>)
    requires Consistent(c, owned, flying) && Honest(Offers(steps), c.allocator.system)
    modifies c, c.cache, c.allocator, c.allocator.free, c.Mem()
    ensures Consistent(c, owned', flying')
    decreases steps
  {
    hide Consistent;
    if steps == [] { return owned, flying; }
    OffersNext(steps);
    HonestFirst(Offers(steps), c.allocator.system);
    var o := CallerStep(c, steps[0], owned, flying);
    var f := ShrinkStep(c, steps[0], o, flying);
    HonestNext(Offers(steps), old(c.allocator.system), c.allocator.system);
    owned', flying' := Run(c, steps[1..], o, f);
  }

  lemma HonestFirst(offers: seq<Offer>, system: set<int>)
    requires offers != [] && Honest(offers, system)
    ensures Honest([offers[0]], system)
  {
  }

  /** With no thread in the middle of shrinking, all that was taken from the
      allocator is with callers or in the cache, and the sizes say how much. */
  lemma Quiet(c: HugeCache, owned: map<nat, HugeRange>)
    requires Consistent(c, owned, map[])
    ensures c.allocator.held == c.user + c.cache.Contents() && c.user !! c.cache.Contents()
    ensures c.size == |c.cache.Contents()| && c.usage == |c.user| && c.allocator.inUse == c.usage + c.size
  {
    hide HugeAddressMap.Valid, HugeAddressMap.Contents, HugeAllocator.Valid;
    assert c.unbacking == {};
    c.SizeCounts();
  }
}

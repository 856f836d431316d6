/** The cache of backed hugepages in front of the allocator (tcmalloc/huge_cache.{h,cc}).

    `ShrinkCache` gives up the page heap lock while it returns memory to the system,
    so its turn is cut there in two: `BeginUnback` and `EndUnback`. Every other
    operation is one step under the lock. */
module Cache {
  import opened Arithmetic
  import opened HugePages
  import opened Treap
  import opened TreapSearch
  import opened AddressMap
  import Lists
  import opened Allocator

  const MIN_CACHE_LIMIT: nat := 10

  /** The hugepages taken from the allocator: with the user, cached, or being unbacked. */
  ghost predicate Shares(user: set<int>, cached: set<int>, unbacking: set<int>, held: set<int>) {
    user !! cached && user !! unbacking && cached !! unbacking && user + cached + unbacking == held
  }

  // Moving hugepages from one share to another, or to and from the allocator.

  lemma UserToCache(user: set<int>, cached: set<int>, unbacking: set<int>, held: set<int>, s: set<int>)
    requires Shares(user, cached, unbacking, held) && s <= user
    ensures Shares(user - s, cached + s, unbacking, held) && s !! cached
  {
  }

  lemma CacheToUser(user: set<int>, cached: set<int>, unbacking: set<int>, held: set<int>, s: set<int>)
    requires Shares(user, cached, unbacking, held) && s <= cached
    ensures Shares(user + s, cached - s, unbacking, held) && s !! user && s <= held
  {
  }

  lemma CacheToFlight(user: set<int>, cached: set<int>, unbacking: set<int>, held: set<int>, s: set<int>)
    requires Shares(user, cached, unbacking, held) && s <= cached
    ensures Shares(user, cached - s, unbacking + s, held) && s !! unbacking
  {
  }

  lemma FlightToCache(user: set<int>, cached: set<int>, unbacking: set<int>, held: set<int>, s: set<int>)
    requires Shares(user, cached, unbacking, held) && s <= unbacking
    ensures Shares(user, cached + s, unbacking - s, held) && s !! cached
  {
  }

  lemma FlightGone(user: set<int>, cached: set<int>, unbacking: set<int>, held: set<int>, s: set<int>)
    requires Shares(user, cached, unbacking, held) && s <= unbacking
    ensures Shares(user, cached, unbacking - s, held - s) && s <= held
  {
  }

  lemma UserGone(user: set<int>, cached: set<int>, unbacking: set<int>, held: set<int>, s: set<int>)
    requires Shares(user, cached, unbacking, held) && s <= user
    ensures Shares(user - s, cached, unbacking, held - s) && s <= held
  {
  }

  lemma FreshToUser(user: set<int>, cached: set<int>, unbacking: set<int>, held: set<int>, s: set<int>)
    requires Shares(user, cached, unbacking, held) && s !! held
    ensures Shares(user + s, cached, unbacking, held + s) && s !! user
  {
  }

  lemma PagesOut(r: HugeRange, user: set<int>)
    requires Pages(r) <= user
    ensures |user - Pages(r)| == |user| - r.len
  {
    PagesCount(r);
    Lists.SubsetCount(Pages(r), user);
  }

  lemma PagesIn(r: HugeRange, user: set<int>)
    requires Pages(r) !! user
    ensures |user + Pages(r)| == |user| + r.len
  {
    PagesCount(r);
  }

  lemma NilPages()
    ensures Pages(NIL) == {}
  {
  }

  class HugeCache {
    const allocator: HugeAllocator
    const cache: HugeAddressMap
    var size: nat
    var limit: nat
    var usage: nat

    ghost var user: set<int>
    ghost var unbacking: set<int>

    /** The two address maps share nothing. */
    ghost predicate Separate()
      reads cache`links, allocator.free`links
    {
      cache != allocator.free && cache.links.Keys !! allocator.free.links.Keys
    }

    /** Both maps are sound, what the allocator handed out is accounted for, and
        `size` is what the cache holds. */
    ghost predicate Consistent()
      reads this`size, this`user, this`unbacking, cache, cache.links.Keys, allocator, allocator.free, allocator.free.links.Keys
    {
      Separate() && cache.Valid() && allocator.Valid() && size == cache.totalSize &&
      Shares(user, cache.Contents(), unbacking, allocator.held)
    }

    /** The nodes of both maps. */
    ghost function Mem(): set<Node>
      reads cache`links, allocator.free`links
    {
      cache.links.Keys + allocator.free.links.Keys
    }

    lemma MemParts()
      ensures Mem() == cache.links.Keys + allocator.free.links.Keys
    {
    }

    ghost predicate Valid()
      reads this, cache, cache.links.Keys, allocator, allocator.free, allocator.free.links.Keys
    {
      Consistent() && usage == |user| && limit >= MIN_CACHE_LIMIT
    }

    constructor ()
      ensures Valid() && user == {} && unbacking == {} && size == 0 && limit == 10
    {
      allocator := new HugeAllocator();
      cache := new HugeAddressMap();
      size, limit, usage := 0, 10, 0;
      user, unbacking := {}, {};
    }

    /** The system bytes reported by the cache are what the allocator has handed out,
        but for what is being unbacked. */
    lemma SizeCounts()
      requires Valid()
      ensures size == |cache.Contents()| && allocator.inUse == usage + size + |unbacking|
    {
      cache.Exactness();
      assert allocator.held == user + cache.Contents() + unbacking;
    }

    /** What came from the system is in use, in the cache, or free in the allocator. */
    lemma Accounted()
      requires Valid() && unbacking == {}
      ensures allocator.fromSystem == usage + size + allocator.free.totalSize
    {
      hide HugeAddressMap.Valid, HugeAddressMap.Contents;
      SizeCounts();
      allocator.FreeSize();
    }

    /** Take `n` hugepages out of the cache, from the range of `node`. */
    method FromCache(node: Node, n: nat) returns (r: HugeRange)
      requires Separate() && cache.Valid() && allocator.Valid() && size == cache.totalSize
      requires cache.Holds(node) && 0 < n <= node.range.len
      modifies this`size, cache, cache.links.Keys
      ensures Separate() && cache.Valid() && allocator.Valid() && size == cache.totalSize
      ensures Pages(r) <= old(cache.Contents()) && cache.Contents() == old(cache.Contents()) - Pages(r)
      ensures r.len == n && size == old(size) - n
      ensures fresh(Mem() - old(Mem()))
    {
      hide HugeAddressMap.Valid, HugeAddressMap.Contents, HugeAddressMap.Ranges, HugeAddressMap.Holds, HugeAllocator.Valid, Pages;
      cache.Holding(node);
      var whole := node.range;
      size := size - n;
      var parts := Split(whole, n);
      cache.Remove(node);
      if parts.1.Valid() {
        cache.Insert(parts.1);
      }
      r := parts.0;
    }

    /** Hand the user `n` hugepages from the range of `node`. */
    method GetCached(node: Node, n: nat) returns (r: HugeRange)
      requires Consistent() && cache.Holds(node) && 0 < n <= node.range.len
      modifies this`size, this`user, cache, cache.links.Keys
      ensures Consistent() && r.Valid() && r.len == n && size == old(size) - n
      ensures user == old(user) + Pages(r) && old(user) !! Pages(r)
      ensures fresh(Mem() - old(Mem()))
    {
      hide HugeAddressMap.Valid, HugeAddressMap.Contents, HugeAddressMap.Ranges, HugeAddressMap.Holds, HugeAllocator.Valid, Pages, Shares;
      ghost var cached := cache.Contents();
      r := FromCache(node, n);
      CacheToUser(user, cached, unbacking, allocator.held, Pages(r));
      allocator.HeldValid(r);
      user := user + Pages(r);
    }

    /** There are `n` hugepages in a row in the cache or in the allocator, or the system gives them. */
    ghost predicate CanServe(n: nat, os: HugeRange)
      reads cache, allocator.free
    {
      HasLength(cache.Ranges(), n) || HasLength(allocator.free.Ranges(), n) || (n < OVERFLOW && os.Valid())
    }

    /** Hand the user `n` hugepages from the allocator. */
    method GetFresh(n: nat, os: HugeRange) returns (r: HugeRange)
      requires Consistent() && n > 0 && (os.Valid() ==> os.len >= n && Pages(os) !! allocator.system)
      modifies this`user, allocator, allocator.free, allocator.free.links.Keys
      ensures Consistent() && (if r.Valid() then r.len == n else r == NIL)
      ensures r.Valid() <==> HasLength(old(allocator.free.Ranges()), n) || (n < OVERFLOW && os.Valid())
      ensures user == old(user) + Pages(r) && old(user) !! Pages(r)
      ensures allocator.system == old(allocator.system) || (os.Valid() && allocator.system == old(allocator.system) + Pages(os))
      ensures fresh(Mem() - old(Mem()))
    {
      hide HugeAddressMap.Valid, HugeAddressMap.Contents, HugeAddressMap.Ranges, HugeAddressMap.Holds, HugeAllocator.Valid, Pages, Shares;
      ghost var held := allocator.held;
      r := allocator.Get(n, os);
      NilPages();
      FreshToUser(user, cache.Contents(), unbacking, held, Pages(r));
      assert held + {} == held;
      user := user + Pages(r);
    }

    /** Serve `n` hugepages from the cache if it has them in a row, else from the
        allocator; `os` is what the system answers if asked. */
    method DoGet(n: nat, os: HugeRange) returns (r: HugeRange, fromReleased: bool)
      requires Consistent() && n > 0 && (os.Valid() ==> os.len >= n && Pages(os) !! allocator.system)
      modifies this`size, this`user, cache, cache.links.Keys, allocator, allocator.free, allocator.free.links.Keys
      ensures Consistent() && (if r.Valid() then r.len == n else r == NIL)
      ensures r.Valid() <==> old(CanServe(n, os))
      ensures user == old(user) + Pages(r) && old(user) !! Pages(r)
      ensures HasLength(old(cache.Ranges()), n) ==> r.Valid() && !fromReleased && size == old(size) - n
      ensures !HasLength(old(cache.Ranges()), n) ==> size == old(size) && cache.Contents() == old(cache.Contents()) && fromReleased == r.Valid()
      ensures allocator.system == old(allocator.system) || (os.Valid() && allocator.system == old(allocator.system) + Pages(os))
      ensures fresh(Mem() - old(Mem()))
    {
      hide HugeAddressMap.Valid, HugeAddressMap.Contents, HugeAddressMap.Ranges, HugeAddressMap.Holds, HugeAllocator.Valid, Pages, Shares;
      fromReleased := false;
      var node := cache.Find(n);
      if node == null {
        r := GetFresh(n, os);
        if r.Valid() { fromReleased := true; }
      } else {
        r := GetCached(node, n);
      }
    }

    /** Raise the limit after a miss, no more than it takes so that the cache could have bridged the
        recent dip in usage with a tenth to spare. */
    method MaybeGrowCacheLimit(dip: nat)
      modifies this`limit
      ensures limit >= old(limit) && limit >= dip + dip / 10 && (limit == old(limit) || limit == dip + dip / 10)
    {
      var lim := dip + dip / 10;
      if lim > limit { limit := lim; }
    }

    /** Hand out `n` contiguous hugepages. */
    method Get(n: nat, os: HugeRange, dip: nat) returns (r: HugeRange, fromReleased: bool)
      requires Valid() && n > 0 && (os.Valid() ==> os.len >= n && Pages(os) !! allocator.system)
      modifies this, cache, allocator, allocator.free, Mem()
      ensures Valid() && unbacking == old(unbacking) && (if r.Valid() then r.len == n else r == NIL)
      ensures r.Valid() <==> old(CanServe(n, os))
      ensures user == old(user) + Pages(r) && old(user) !! Pages(r) && usage == old(usage) + r.len
      ensures HasLength(old(cache.Ranges()), n) ==> r.Valid() && !fromReleased && size == old(size) - n && limit == old(limit)
      ensures !HasLength(old(cache.Ranges()), n) ==> size == old(size) && cache.Contents() == old(cache.Contents()) && fromReleased == r.Valid()
      ensures limit >= old(limit) && (r.Valid() && fromReleased ==> limit >= dip + dip / 10)
      ensures allocator.system == old(allocator.system) || (os.Valid() && allocator.system == old(allocator.system) + Pages(os))
      ensures fresh(Mem() - old(Mem()))
    {
      hide Consistent, CanServe, HugeAddressMap.Contents, HugeAddressMap.Ranges, Pages;
      r, fromReleased := DoGet(n, os);
      PagesIn(r, old(user));
      usage := usage + r.len;
      if r.Valid() && fromReleased { MaybeGrowCacheLimit(dip); }
    }

    /** Cache `r`, which the user gives back: the first part of `Release`. */
    method Fill(r: HugeRange)
      requires Valid() && r.len > 0 && Pages(r) <= user
      modifies this`usage, this`user, this`size, cache, cache.links.Keys
      ensures Valid() && user == old(user) - Pages(r) && usage == old(usage) - r.len && size == old(size) + r.len
      ensures cache.Contents() == old(cache.Contents()) + Pages(r)
      ensures fresh(Mem() - old(Mem()))
    {
      hide HugeAddressMap.Valid, HugeAddressMap.Contents, HugeAddressMap.Ranges, HugeAllocator.Valid, Pages, Shares;
      PagesOut(r, user);
      UserToCache(user, cache.Contents(), unbacking, allocator.held, Pages(r));
      usage := usage - r.len;
      user := user - Pages(r);
      cache.Insert(r);
      size := size + r.len;
    }

    /** Give `r`, which is not backed, straight back to the allocator. */
    method ReleaseUnbacked(r: HugeRange)
      requires Valid() && r.len > 0 && Pages(r) <= user
      modifies this`usage, this`user, allocator, allocator.free, allocator.free.links.Keys
      ensures Valid() && user == old(user) - Pages(r) && usage == old(usage) - r.len
      ensures allocator.held == old(allocator.held) - Pages(r) && allocator.system == old(allocator.system)
      ensures fresh(Mem() - old(Mem()))
    {
      hide HugeAddressMap.Valid, HugeAddressMap.Contents, HugeAddressMap.Ranges, HugeAllocator.Valid, Pages, Shares;
      PagesOut(r, user);
      UserGone(user, cache.Contents(), unbacking, allocator.held, Pages(r));
      usage := usage - r.len;
      user := user - Pages(r);
      allocator.Release(r);
    }

    /** One turn of `ShrinkCache` up to the point where it drops the lock: take a
        range out of the cache that leaves at least `target` behind. */
    method BeginUnback(target: nat) returns (r: HugeRange)
      requires Valid() && size > target
      modifies this`size, this`unbacking, cache, cache.links.Keys
      ensures Valid() && 0 < r.len && size == old(size) - r.len && size >= target
      ensures Pages(r) !! old(unbacking) && unbacking == old(unbacking) + Pages(r)
      ensures Pages(r) <= old(cache.Contents()) && cache.Contents() == old(cache.Contents()) - Pages(r)
      ensures fresh(Mem() - old(Mem()))
    {
      hide HugeAddressMap.Valid, HugeAddressMap.Contents, HugeAddressMap.Ranges, HugeAddressMap.Holds, HugeAllocator.Valid, Pages, Shares, HasLength;
      cache.NonEmpty();
      var node := cache.Find(1);
      ghost var cached := cache.Contents();
      r := CutOut(node, target);
      CacheToFlight(user, cached, unbacking, allocator.held, Pages(r));
      unbacking := unbacking + Pages(r);
    }

    /** Take the range of `node`, or the front of it, out of the cache. */
    method CutOut(node: Node, target: nat) returns (r: HugeRange)
      requires Separate() && cache.Valid() && allocator.Valid() && size == cache.totalSize
      requires size > target && cache.Holds(node)
      modifies this`size, cache, cache.links.Keys
      ensures Separate() && cache.Valid() && allocator.Valid() && size == cache.totalSize
      ensures Pages(r) <= old(cache.Contents()) && cache.Contents() == old(cache.Contents()) - Pages(r)
      ensures 0 < r.len && size == old(size) - r.len && size >= target
      ensures fresh(Mem() - old(Mem()))
    {
      hide HugeAddressMap.Valid, HugeAddressMap.Contents, HugeAddressMap.Ranges, HugeAddressMap.Holds, HugeAllocator.Valid, Pages;
      cache.Holding(node);
      r := node.range;
      cache.Remove(node);
      var delta := size - target;
      if r.len > delta {
        var parts := Split(r, delta);
        cache.Insert(parts.1);
        r := parts.0;
      }
      size := size - r.len;
    }

    /** The rest of the turn, with the lock held again: the unback of `r` went well or not. */
    method EndUnback(r: HugeRange, success: bool)
      requires Valid() && r.len > 0 && Pages(r) <= unbacking
      modifies this`size, this`unbacking, cache, cache.links.Keys, allocator, allocator.free, allocator.free.links.Keys
      ensures Valid() && unbacking == old(unbacking) - Pages(r)
      ensures if success then size == old(size) && cache.Contents() == old(cache.Contents()) && allocator.held == old(allocator.held) - Pages(r)
              else size == old(size) + r.len && cache.Contents() == old(cache.Contents()) + Pages(r) && allocator.held == old(allocator.held)
      ensures allocator.system == old(allocator.system)
      ensures fresh(Mem() - old(Mem()))
    {
      hide HugeAddressMap.Valid, HugeAddressMap.Contents, HugeAddressMap.Ranges, HugeAllocator.Valid, Pages, Shares;
      if !success {
        KeepBacked(r);
      } else {
        GiveBack(r);
      }
    }

    method KeepBacked(r: HugeRange)
      requires Valid() && r.len > 0 && Pages(r) <= unbacking
      modifies this`size, this`unbacking, cache, cache.links.Keys
      ensures Valid() && unbacking == old(unbacking) - Pages(r)
      ensures size == old(size) + r.len && cache.Contents() == old(cache.Contents()) + Pages(r)
      ensures fresh(Mem() - old(Mem()))
    {
      hide HugeAddressMap.Valid, HugeAddressMap.Contents, HugeAddressMap.Ranges, HugeAllocator.Valid, Pages, Shares;
      FlightToCache(user, cache.Contents(), unbacking, allocator.held, Pages(r));
      unbacking := unbacking - Pages(r);
      size := size + r.len;
      cache.Insert(r);
    }

    method GiveBack(r: HugeRange)
      requires Valid() && r.len > 0 && Pages(r) <= unbacking
      modifies this`unbacking, allocator, allocator.free, allocator.free.links.Keys
      ensures Valid() && unbacking == old(unbacking) - Pages(r)
      ensures allocator.held == old(allocator.held) - Pages(r) && allocator.system == old(allocator.system)
      ensures fresh(Mem() - old(Mem()))
    {
      hide HugeAddressMap.Valid, HugeAddressMap.Contents, HugeAddressMap.Ranges, HugeAllocator.Valid, Pages, Shares;
      FlightGone(user, cache.Contents(), unbacking, allocator.held, Pages(r));
      unbacking := unbacking - Pages(r);
      allocator.Release(r);
    }

    /** Unback what the cache has beyond `target`, if nobody interferes. `unback` says
        how the attempts go. */
    method ShrinkCache(target: nat, unback: (nat, nat) -> bool, phase: nat) returns (removed: nat)
      requires Valid()
      modifies this`size, this`unbacking, cache, allocator, allocator.free, Mem()
      ensures Valid() && fresh(Mem() - old(Mem())) && unbacking == old(unbacking) && allocator.system == old(allocator.system)
      ensures removed == old(size) - size && size >= Least(old(size), target)
      ensures (forall k: nat :: unback(phase, k)) ==> size == Least(old(size), target)
      ensures cache.Contents() <= old(cache.Contents())
    {
      hide Valid, HugeAddressMap.Contents, HugeAddressMap.Ranges, Pages;
      removed := 0;
      var k: nat := 0;
      while size > target
        invariant Valid() && fresh(Mem() - old(Mem())) && unbacking == old(unbacking) && allocator.system == old(allocator.system)
        invariant removed == old(size) - size && size >= Least(old(size), target)
        invariant cache.Contents() <= old(cache.Contents())
        decreases size
      {
        var r := BeginUnback(target);
        var success := unback(phase, k);
        EndUnback(r, success);
        if !success { break; }
        removed := removed + r.len;
        k := k + 1;
      }
    }

    /** Lower the limit if the cache was never smaller than `min` lately. */
    method LowerLimit(min: nat) returns (lowered: bool)
      requires Valid()
      modifies this`limit
      ensures Valid() && lowered == (min >= old(limit) / 5) && limit <= old(limit)
      ensures if lowered && old(limit) > MIN_CACHE_LIMIT then limit < old(limit) else limit == old(limit)
    {
      hide Consistent;
      if min < limit / 5 { return false; }
      var drop := if min / 2 >= 1 then min / 2 else 1;
      var lower := if limit <= drop then 0 else limit - drop;
      limit := if lower >= MIN_CACHE_LIMIT then lower else MIN_CACHE_LIMIT;
      lowered := true;
    }

    /** Lower the limit if that seems right, and shrink to it. */
    method MaybeShrinkCacheLimit(min: nat, unback: (nat, nat) -> bool) returns (removed: nat)
      requires Valid()
      modifies this`size, this`limit, this`unbacking, cache, allocator, allocator.free, Mem()
      ensures Valid() && fresh(Mem() - old(Mem())) && unbacking == old(unbacking) && allocator.system == old(allocator.system)
      ensures removed == old(size) - size && limit <= old(limit)
      ensures cache.Contents() <= old(cache.Contents())
      ensures min < old(limit) / 5 ==> limit == old(limit) && size == old(size)
      ensures min >= old(limit) / 5 && (forall k: nat :: unback(0, k)) ==> size == Least(old(size), limit)
      ensures size >= Least(old(size), limit)
    {
      hide Valid, HugeAddressMap.Contents;
      var lowered := LowerLimit(min);
      if !lowered { return 0; }
      removed := ShrinkCache(limit, unback, 0);
    }

    /** Take back `r`, which is backed. `stale` says that the limit has not changed lately. */
    method Release(r: HugeRange, stale: bool, min: nat, unback: (nat, nat) -> bool)
      requires Valid() && r.len > 0 && Pages(r) <= user
      modifies this, cache, allocator, allocator.free, Mem()
      ensures Valid() && fresh(Mem() - old(Mem())) && unbacking == old(unbacking) && allocator.system == old(allocator.system)
      ensures user == old(user) - Pages(r) && usage == old(usage) - r.len && limit <= old(limit)
      ensures cache.Contents() <= old(cache.Contents()) + Pages(r)
      ensures size <= old(size) + r.len && size >= Least(old(size) + r.len, limit)
      ensures (forall p: nat, k: nat :: unback(p, k)) ==> size <= limit
    {
      hide Valid, HugeAddressMap.Contents, Pages;
      Fill(r);
      if stale {
        var fast := MaybeShrinkCacheLimit(min, unback);
      }
      var fast := ShrinkCache(limit, unback, 1);
    }

    /** Unback up to `n` hugepages, and more if the cache seems too big. */
    method ReleaseCachedPages(n: nat, min: nat, unback: (nat, nat) -> bool) returns (released: nat)
      requires Valid()
      modifies this`size, this`limit, this`unbacking, cache, allocator, allocator.free, Mem()
      ensures Valid() && fresh(Mem() - old(Mem())) && unbacking == old(unbacking) && allocator.system == old(allocator.system)
      ensures released == old(size) - size
      ensures (forall p: nat, k: nat :: unback(p, k)) ==> released >= Least(n, old(size))
      ensures min < old(limit) / 5 ==> released <= n
    {
      hide Valid, HugeAddressMap.Contents, Pages;
      released := MaybeShrinkCacheLimit(min, unback);
      if released < n {
        var rest := n - released;
        var target := if rest > size then 0 else size - rest;
        var more := ShrinkCache(target, unback, 1);
        released := released + more;
      }
    }
  }
}

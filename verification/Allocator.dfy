/** The allocator of hugepage address space (tcmalloc/huge_allocator.{h,cc}). */
module Allocator {
  import opened HugePages
  import opened Treap
  import opened TreapSearch
  import opened AddressMap
  import Lists

  /** Lengths from here on do not fit a byte count. */
  const OVERFLOW: nat := 0x800_0000_0000

  /** What the system gives if it is asked, and how many hugepages it is asked for. */
  datatype Offer = Offer(os: HugeRange, need: nat)

  /** The system never hands out a hugepage twice, and never less than asked for. */
  ghost predicate Honest(offers: seq<Offer>, system: set<int>) {
    (forall i :: 0 <= i < |offers| && offers[i].os.Valid() ==> offers[i].os.len >= offers[i].need && Pages(offers[i].os) !! system) &&
    (forall i, j :: 0 <= i < j < |offers| && offers[i].os.Valid() && offers[j].os.Valid() ==> Pages(offers[i].os) !! Pages(offers[j].os))
  }

  lemma HonestNext(offers: seq<Offer>, system: set<int>, system': set<int>)
    requires offers != [] && Honest(offers, system)
    requires system' == system || (offers[0].os.Valid() && system' == system + Pages(offers[0].os))
    ensures Honest(offers[1..], system')
  {
    var rest := offers[1..];
    assert forall i :: 0 <= i < |rest| ==> rest[i] == offers[i + 1];
  }

  /** Hugepages that lie in one run lie in one range of the map. */
  lemma {:induction false} RunInside(s: seq<HugeRange>, r: HugeRange)
    requires Separated(s) && r.len > 0 && Pages(r) <= Covered(s)
    ensures HasLength(s, r.len)
  {
    assert r.start in Pages(r);
    CoveredMember(s, r.start);
    var i :| 0 <= i < |s| && s[i].Contains(r.start);
    if s[i].len < r.len {
      var p := s[i].End();
      assert p in Pages(r);
      CoveredMember(s, p);
      assert false;
    }
  }

  lemma HasLengthLess(s: seq<HugeRange>, n: nat, k: nat)
    requires HasLength(s, n) && k <= n
    ensures HasLength(s, k)
  {
  }

  /** What came from the system is partitioned into free and in use, and counted. */
  ghost predicate Books(free: set<int>, held: set<int>, system: set<int>, fromSystem: int, inUse: int) {
    free !! held && free + held == system && 0 !in system && fromSystem == |system| && inUse == |held|
  }

  lemma BooksRelease(free: set<int>, held: set<int>, system: set<int>, fromSystem: int, inUse: int, r: HugeRange)
    requires Books(free, held, system, fromSystem, inUse) && Pages(r) <= held
    ensures Books(free + Pages(r), held - Pages(r), system, fromSystem, inUse - r.len)
    ensures r.len <= inUse && free !! Pages(r)
  {
    PagesCount(r);
    Lists.SubsetCount(Pages(r), held);
  }

  lemma BooksTake(free: set<int>, held: set<int>, system: set<int>, fromSystem: int, inUse: int, r: HugeRange)
    requires Books(free, held, system, fromSystem, inUse) && Pages(r) <= free
    ensures Books(free - Pages(r), held + Pages(r), system, fromSystem, inUse + r.len)
    ensures held !! Pages(r) && (r.len > 0 ==> r.Valid())
  {
    PagesCount(r);
    if r.len > 0 { assert r.start in Pages(r); }
  }

  /** A range from the system counts as held until it is released. */
  lemma BooksGrow(free: set<int>, held: set<int>, system: set<int>, fromSystem: int, inUse: int, r: HugeRange)
    requires Books(free, held, system, fromSystem, inUse) && Pages(r) !! system && r.Valid()
    ensures Books(free, held + Pages(r), system + Pages(r), fromSystem + r.len, inUse + r.len)
    ensures Pages(r) <= held + Pages(r) && held + Pages(r) - Pages(r) == held
  {
    PagesCount(r);
  }

  /** Cutting `n` hugepages off the front of `r`. */
  lemma CutFront(held: set<int>, r: HugeRange, n: nat)
    requires n < r.len && held !! Pages(r)
    ensures Pages(HugeRange(r.start + n, r.len - n)) <= held + Pages(r)
    ensures held + Pages(r) - Pages(HugeRange(r.start + n, r.len - n)) == held + Pages(HugeRange(r.start, n))
    ensures Pages(HugeRange(r.start, n)) <= Pages(r)
  {
  }

  class HugeAllocator {
    const free: HugeAddressMap
    var fromSystem: nat
    var inUse: nat

    /** The hugepages obtained from the system, and those handed out. */
    ghost var system: set<int>
    ghost var held: set<int>

    ghost predicate Valid()
      reads this, free, free.links.Keys
    {
      free.Valid() && Books(free.Contents(), held, system, fromSystem, inUse)
    }

    constructor ()
      ensures Valid() && system == {} && held == {} && fresh(free) && free.links.Keys == {}
    {
      free := new HugeAddressMap();
      fromSystem, inUse, system, held := 0, 0, {}, {};
    }

    /** The books balance: the free hugepages are those from the system not in use. */
    lemma FreeSize()
      requires Valid()
      ensures free.totalSize == fromSystem - inUse && free.totalSize == |free.Contents()|
    {
      free.Exactness();
      assert system - held == free.Contents();
      Lists.SubsetCount(held, system);
    }

    /** What is handed out never starts at hugepage 0. */
    lemma HeldValid(r: HugeRange)
      requires Valid() && Pages(r) <= held && r.len > 0
      ensures r.Valid()
    {
      assert r.start in Pages(r);
    }

    /** Take back `r`. */
    method Release(r: HugeRange)
      requires Valid() && r.len > 0 && Pages(r) <= held
      modifies this`inUse, this`held, free, free.links.Keys
      ensures Valid() && held == old(held) - Pages(r) && free.Contents() == old(free.Contents()) + Pages(r)
      ensures fresh(free.links.Keys - old(free.links).Keys) && free.links.Keys >= old(free.links).Keys
    {
      hide HugeAddressMap.Valid, HugeAddressMap.Contents, HugeAddressMap.Ranges, Pages, Books;
      BooksRelease(free.Contents(), held, system, fromSystem, inUse, r);
      inUse := inUse - r.len;
      held := held - Pages(r);
      free.Insert(r);
    }

    /** Ask the system, which answers `os`, for at least `n` hugepages. */
    method AllocateRange(n: nat, os: HugeRange) returns (r: HugeRange)
      requires Valid() && (os.Valid() ==> Pages(os) !! system)
      modifies this`fromSystem, this`system
      ensures r == if n >= OVERFLOW || !os.Valid() then NIL else os
      ensures system == if r.Valid() then old(system) + Pages(os) else old(system)
      ensures if r.Valid() then Books(free.Contents(), held + Pages(r), system, fromSystem, inUse + r.len) else Valid()
      ensures r.Valid() ==> held + Pages(r) - Pages(r) == held
    {
      hide HugeAddressMap.Valid, HugeAddressMap.Contents, HugeAddressMap.Ranges, Pages, Books;
      if n >= OVERFLOW || !os.Valid() { return NIL; }
      BooksGrow(free.Contents(), held, system, fromSystem, inUse, os);
      fromSystem := fromSystem + os.len;
      system := system + Pages(os);
      r := os;
    }

    /** Take the range of `node` off the free list, `n` hugepages of which are counted as in use. */
    method Detach(node: Node, n: nat) returns (r: HugeRange)
      requires Valid() && free.Holds(node) && 0 < n <= node.range.len
      modifies this`inUse, this`held, free, free.links.Keys
      ensures r == old(node.range) && r.Valid() && Pages(r) <= old(free.Contents()) && Pages(r) !! old(held) && held == old(held) + Pages(r)
      ensures free.Valid() && Books(free.Contents(), held, system, fromSystem, inUse + (r.len - n))
      ensures fresh(free.links.Keys - old(free.links).Keys) && free.links.Keys >= old(free.links).Keys
    {
      hide HugeAddressMap.Valid, HugeAddressMap.Contents, HugeAddressMap.Ranges, HugeAddressMap.Holds, Pages, Books;
      r := node.range;
      free.Holding(node);
      BooksTake(free.Contents(), held, system, fromSystem, inUse, r);
      inUse := inUse + n;
      free.Remove(node);
      held := held + Pages(r);
    }

    /** Hand out `n` hugepages from the range of `node`. */
    method TakeFrom(node: Node, n: nat) returns (r: HugeRange)
      requires Valid() && free.Holds(node) && 0 < n <= node.range.len
      modifies this`inUse, this`held, free, free.links.Keys
      ensures Valid() && r.len == n && r.Valid()
      ensures Pages(r) <= old(free.Contents()) && Pages(r) !! old(held) && held == old(held) + Pages(r)
      ensures fresh(free.links.Keys - old(free.links).Keys) && free.links.Keys >= old(free.links).Keys
    {
      hide HugeAddressMap.Valid, HugeAddressMap.Contents, HugeAddressMap.Ranges, HugeAddressMap.Holds, Pages, Books;
      r := Detach(node, n);
      if r.len > n {
        CutFront(old(held), r, n);
        var extra := HugeRange(r.start + n, r.len - n);
        r := HugeRange(r.start, n);
        inUse := inUse + extra.len;
        Release(extra);
      }
    }

    /** Get more address space, in which `Find` will succeed. */
    method Grow(n: nat, os: HugeRange) returns (ok: bool)
      requires Valid() && n > 0 && (os.Valid() ==> os.len >= n && Pages(os) !! system)
      modifies this, free, free.links.Keys
      ensures Valid() && held == old(held) && ok == (n < OVERFLOW && os.Valid())
      ensures system == if ok then old(system) + Pages(os) else old(system)
      ensures ok ==> HasLength(free.Ranges(), n)
      ensures fresh(free.links.Keys - old(free.links).Keys) && free.links.Keys >= old(free.links).Keys
    {
      hide HugeAddressMap.Valid, Pages, Books, Covered, Separated;
      var r := AllocateRange(n, os);
      if !r.Valid() { return false; }
      inUse := inUse + r.len;
      held := held + Pages(r);
      Release(r);
      free.Exactness();
      RunInside(free.Ranges(), r);
      HasLengthLess(free.Ranges(), r.len, n);
      ok := true;
    }

    /** Hand out `n` contiguous hugepages; `os` is what the system answers if asked. */
    method Get(n: nat, os: HugeRange) returns (r: HugeRange)
      requires Valid() && n > 0 && (os.Valid() ==> os.len >= n && Pages(os) !! system)
      modifies this, free, free.links.Keys
      ensures Valid() && fresh(free.links.Keys - old(free.links).Keys) && free.links.Keys >= old(free.links).Keys
      ensures r.Valid() <==> HasLength(old(free.Ranges()), n) || (n < OVERFLOW && os.Valid())
      ensures system == if HasLength(old(free.Ranges()), n) || !r.Valid() then old(system) else old(system) + Pages(os)
      ensures if r.Valid() then r.len == n && Pages(r) !! old(held) && held == old(held) + Pages(r)
              else r == NIL && held == old(held)
    {
      hide HugeAddressMap.Valid, HugeAddressMap.Contents, HugeAddressMap.Ranges, HugeAddressMap.Holds, Pages, Books;
      var node := free.Find(n);
      if node == null {
        var ok := Grow(n, os);
        if !ok { return NIL; }
        node := free.Find(n);
      }
      r := TakeFrom(node, n);
    }
  }
}

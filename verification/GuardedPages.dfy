/** Sampled allocations on pages of their own, with guard pages between them
    (tcmalloc/guarded_page_allocator.cc). */
module GuardedPages {
  import opened Arithmetic
  import opened Lists

  const MAX_PAGES: nat := 512
  const MAGIC_SIZE: nat := 32
  const NEW_ALIGNMENT: nat := 16

  // ----- powers of two -----

  function Pow(k: nat): (r: nat)
    ensures r > 0
  {
    if k == 0 then 1 else 2 * Pow(k - 1)
  }

  ghost predicate IsPower(x: nat) { exists k: nat :: x == Pow(k) }

  function BitCeil(x: nat): nat
    requires x > 0
  {
    Pow(BitWidth(x - 1))
  }

  lemma {:induction false} PowSum(i: nat, j: nat)
    ensures Pow(i + j) == Pow(i) * Pow(j)
    decreases j
  {
    if j > 0 {
      PowSum(i, j - 1);
      assert Pow(i + j) == 2 * (Pow(i) * Pow(j - 1));
    }
  }

  lemma {:induction false} PowMonotone(i: nat, j: nat)
    ensures i < j ==> Pow(i) < Pow(j)
    decreases j
  {
    if i < j { PowMonotone(i, j - 1); }
  }

  lemma Multiple(a: nat, b: nat)
    requires b > 0
    ensures (a * b) % b == 0
  {
    var x := a * b;
    var q := x / b;
    assert x == q * b + x % b;
    if q < a { MulLe(q + 1, a, b); }
    if a < q { MulLe(a + 1, q, b); }
  }

  lemma PowDivides(i: nat, j: nat)
    requires i <= j
    ensures Pow(j) % Pow(i) == 0
  {
    hide Pow;
    PowSum(j - i, i);
    Multiple(Pow(j - i), Pow(i));
  }

  /** Of two powers of two the smaller divides the larger. */
  lemma Divides(a: nat, b: nat)
    requires IsPower(a) && IsPower(b) && a <= b
    ensures b % a == 0
  {
    hide Pow;
    var i: nat :| a == Pow(i);
    var j: nat :| b == Pow(j);
    PowMonotone(j, i);
    PowDivides(i, j);
  }

  lemma {:induction false} CeilAtLeast(x: nat)
    ensures x < Pow(BitWidth(x))
    decreases x
  {
    if x > 0 { CeilAtLeast(x / 2); }
  }

  lemma {:induction false} CeilAtMost(x: nat, k: nat)
    requires x < Pow(k)
    ensures BitWidth(x) <= k
    decreases k
  {
    if x > 0 { CeilAtMost(x / 2, k - 1); }
  }

  /** The smallest power of two that is not less than `x`. */
  lemma CeilIs(x: nat, p: nat)
    requires 0 < x <= p && IsPower(p)
    ensures IsPower(BitCeil(x)) && x <= BitCeil(x) <= p
  {
    CeilAtLeast(x - 1);
    var k: nat :| p == Pow(k);
    CeilAtMost(x - 1, k);
    PowMonotone(BitWidth(x - 1), k);
    hide Pow, BitWidth;
  }

  lemma SixteenIsPower()
    ensures IsPower(NEW_ALIGNMENT)
  {
    assert Pow(4) == 16;
  }

  // ----- alignment -----

  /** What a right-aligned allocation is aligned to. */
  function AlignTo(size: nat, alignment: nat): nat
    requires size > 0
  {
    Most(alignment, Least(BitCeil(size), NEW_ALIGNMENT))
  }

  lemma AlignToIs(size: nat, alignment: nat, pageSize: nat)
    requires 0 < size <= pageSize && IsPower(pageSize) && (alignment == 0 || (IsPower(alignment) && alignment <= pageSize))
    ensures IsPower(AlignTo(size, alignment)) && AlignTo(size, alignment) > 0 && pageSize % AlignTo(size, alignment) == 0
    ensures alignment > 0 ==> AlignTo(size, alignment) % alignment == 0
  {
    CeilIs(size, pageSize);
    SixteenIsPower();
    hide BitCeil;
    Divides(AlignTo(size, alignment), pageSize);
    if alignment > 0 { Divides(alignment, AlignTo(size, alignment)); }
  }

  lemma ModZero(a: nat, b: nat, c: nat)
    requires b > 0 && c > 0 && a % b == 0 && b % c == 0
    ensures a % c == 0
  {
    var p, q := a / b, b / c;
    assert a == p * b && b == q * c;
    assert a == (p * q) * c;
    Multiple(p * q, c);
  }

  lemma RoundDown(x: nat, low: nat, a: nat)
    requires a > 0 && low % a == 0 && low <= x
    ensures low <= x - x % a && (x - x % a) % a == 0
  {
    var p, q := low / a, x / a;
    assert low == p * a && x == q * a + x % a;
    assert p <= q by {
      if q < p { MulLe(q + 1, p, a); }
    }
    MulLe(p, q, a);
    Multiple(q, a);
  }

  /** A right-aligned allocation is inside its page, aligned, and as far right as that allows. */
  lemma RightAligned(page: nat, pageSize: nat, size: nat, alignment: nat)
    requires 0 < size <= pageSize && IsPower(pageSize) && page % pageSize == 0
    requires alignment == 0 || (IsPower(alignment) && alignment <= pageSize)
    ensures AlignTo(size, alignment) > 0
    ensures var end := page + pageSize - size; var start := end - end % AlignTo(size, alignment);
      page <= start && start + size <= page + pageSize && start % AlignTo(size, alignment) == 0 &&
      (alignment > 0 ==> start % alignment == 0) && page + pageSize - (start + size) == end % AlignTo(size, alignment)
  {
    AlignToIs(size, alignment, pageSize);
    hide AlignTo;
    var a := AlignTo(size, alignment);
    var end := page + pageSize - size;
    ModZero(page, pageSize, a);
    RoundDown(end, page, a);
    if alignment > 0 { ModZero(end - end % a, a, alignment); }
  }

  // ----- pages and slots -----

  /** Pages that may be returned alternate with guard pages; the first is at `first`. */
  datatype Pool = Pool(first: nat, pageSize: nat, total: nat) {
    /** The pages are aligned, and there is a guard page before the first. */
    ghost predicate Valid() {
      IsPower(pageSize) && pageSize > 1 && 0 < total <= MAX_PAGES && first % pageSize == 0 && first >= pageSize
    }

    ghost predicate Mapped(addr: nat) { first - pageSize <= addr < first + 2 * total * pageSize }

    function SlotToAddr(slot: nat): nat { first + 2 * slot * pageSize }

    function AddrToSlot(addr: int): int
      requires pageSize > 0
    {
      (addr - first) / pageSize / 2
    }

    function GetPageAddr(addr: int): int
      requires pageSize > 0
    {
      addr - addr % pageSize
    }

    function GetNearestValidPage(addr: int): int
      requires pageSize > 1 && total > 0
    {
      var last := first + 2 * (total - 1) * pageSize;
      if addr < first then first
      else if addr > last then last
      else
        var offset := addr - first;
        if (offset / pageSize) % 2 == 0 then addr
        else
          var half := pageSize / 2;
          if (offset / half) % 2 == 0 then addr - half else addr + half
    }

    function GetNearestSlot(addr: int): int
      requires pageSize > 1 && total > 0
    {
      AddrToSlot(GetPageAddr(GetNearestValidPage(addr)))
    }

    /** How far `addr` is from the page of `slot`. */
    ghost function Distance(addr: nat, slot: nat): nat {
      var page := SlotToAddr(slot);
      if addr < page then page - addr else if addr < page + pageSize then 0 else addr - (page + pageSize - 1)
    }

    /** Going from slots to addresses loses nothing. */
    lemma SlotBack(slot: nat)
      requires pageSize > 0
      ensures AddrToSlot(SlotToAddr(slot)) == slot && (SlotToAddr(slot) - first) % pageSize == 0
    {
      Multiple(2 * slot, pageSize);
      DivIs(2 * slot * pageSize, pageSize, 2 * slot);
    }
  }

  /** An address `x` bytes into the page of slot `j` is on that slot. */
  lemma OnPage(p: Pool, j: nat, x: nat)
    requires p.pageSize > 0 && p.first % p.pageSize == 0 && x < p.pageSize
    ensures p.AddrToSlot(p.GetPageAddr(p.SlotToAddr(j) + x)) == j
  {
    var addr := p.SlotToAddr(j) + x;
    var f := p.first / p.pageSize;
    assert p.first == f * p.pageSize;
    assert p.SlotToAddr(j) == (f + 2 * j) * p.pageSize;
    DivIs(addr, p.pageSize, f + 2 * j);
    assert addr == addr / p.pageSize * p.pageSize + addr % p.pageSize;
    p.SlotBack(j);
  }

  /** How far an address `g` bytes into page `k` after the first is from a slot. */
  lemma DistanceIs(p: Pool, addr: nat, k: int, g: nat, t: nat)
    requires addr == p.first + k * p.pageSize + g && g < p.pageSize
    ensures 2 * t == k ==> p.Distance(addr, t) == 0
    ensures 2 * t > k ==> p.Distance(addr, t) == (2 * t - k) * p.pageSize - g >= p.pageSize - g
    ensures 2 * t < k ==> p.Distance(addr, t) == (k - 2 * t - 1) * p.pageSize + g + 1 >= g + 1
  {
    var size := p.pageSize;
    assert addr - p.SlotToAddr(t) == (k - 2 * t) * size + g;
    if 2 * t > k {
      assert (2 * t - k) * size >= size by { MulLe(1, 2 * t - k, size); }
    } else if 2 * t < k {
      assert (k - 2 * t) * size == (k - 2 * t - 1) * size + size;
      MulLe(0, k - 2 * t - 1, size);
    }
  }

  /** Where an address `g` bytes into a guard page goes: to the closer one of its neighbours. */
  lemma GuardSide(offset: nat, size: nat, k: nat, g: nat)
    requires size > 1 && size % 2 == 0 && offset == k * size + g && g < size
    ensures (offset / (size / 2)) % 2 == 0 <==> g < size / 2
  {
    var half := size / 2;
    assert size == 2 * half;
    assert k * size == 2 * k * half;
    if g < half {
      DivIs(offset, half, 2 * k);
    } else {
      assert (2 * k + 1) * half == 2 * k * half + half;
      DivIs(offset, half, 2 * k + 1);
    }
  }

  lemma EvenPage(p: Pool)
    requires p.Valid()
    ensures p.pageSize % 2 == 0
  {
    var k: nat :| p.pageSize == Pow(k);
  }

  lemma PageSign(k: int, g: nat, size: nat)
    requires g < size
    ensures k >= 0 <==> k * size + g >= 0
    ensures k >= -1 <==> k * size + g + size >= 0
  {
    if k >= 0 { MulLe(0, k, size); } else { MulLe(0, -1 - k, size); }
    if k < -1 { MulLe(0, -2 - k, size); }
  }

  /** The address of the nearest valid page is on the page of some slot, `x` bytes in. */
  lemma NearestIs(p: Pool, addr: nat, k: int, g: nat) returns (j: nat, x: nat)
    requires p.Valid() && p.Mapped(addr) && addr == p.first + k * p.pageSize + g && g < p.pageSize
    ensures j < p.total && x < p.pageSize && p.GetNearestValidPage(addr) == p.SlotToAddr(j) + x
    ensures 2 * j == k || (2 * j == k + 1 && (k == -1 || g >= p.pageSize / 2)) ||
            (2 * j == k - 1 && (j == p.total - 1 || g < p.pageSize / 2))
  {
    var size := p.pageSize;
    PageSign(k, g, size);
    if addr < p.first { return 0, 0; }
    if addr > p.first + 2 * (p.total - 1) * size {
      LastPages(p, addr, k, g);
      return p.total - 1, 0;
    }
    j, x := Between(p, addr, k, g);
  }

  lemma NotAfterLast(p: Pool, addr: nat, k: nat, g: nat)
    requires p.Valid() && addr == p.first + k * p.pageSize + g && g < p.pageSize && addr <= p.first + 2 * (p.total - 1) * p.pageSize
    ensures k <= 2 * (p.total - 1)
  {
    hide IsPower;
    var size := p.pageSize;
    PageSign(k - 2 * (p.total - 1) - 1, g, size);
    assert (k - 2 * (p.total - 1) - 1) * size == k * size - 2 * (p.total - 1) * size - size;
  }

  lemma Between(p: Pool, addr: nat, k: nat, g: nat) returns (j: nat, x: nat)
    requires p.Valid() && addr == p.first + k * p.pageSize + g && g < p.pageSize && addr <= p.first + 2 * (p.total - 1) * p.pageSize
    ensures j < p.total && x < p.pageSize && p.GetNearestValidPage(addr) == p.SlotToAddr(j) + x
    ensures 2 * j == k || (2 * j == k + 1 && g >= p.pageSize / 2) || (2 * j == k - 1 && g < p.pageSize / 2)
  {
    EvenPage(p);
    NotAfterLast(p, addr, k, g);
    hide IsPower;
    DivIs(addr - p.first, p.pageSize, k);
    if k % 2 == 0 {
      assert k == 2 * (k / 2);
      return k / 2, g;
    }
    var half := p.pageSize / 2;
    GuardSide(addr - p.first, p.pageSize, k, g);
    var shift := if g < half then -half else half;
    assert p.GetNearestValidPage(addr) == addr + shift;
    hide Pool.GetNearestValidPage;
    j, x := Beside(p, addr, k, g);
  }

  /** Half a page from a guard page, in the right direction, is the page next to it. */
  lemma Beside(p: Pool, addr: nat, k: nat, g: nat) returns (j: nat, x: nat)
    requires p.pageSize > 1 && p.pageSize % 2 == 0 && addr == p.first + k * p.pageSize + g && g < p.pageSize && k % 2 == 1 && k <= 2 * (p.total - 1)
    ensures j < p.total && x < p.pageSize && p.SlotToAddr(j) + x == addr + if g < p.pageSize / 2 then -(p.pageSize / 2) else p.pageSize / 2
    ensures (2 * j == k + 1 && g >= p.pageSize / 2) || (2 * j == k - 1 && g < p.pageSize / 2)
  {
    var size, half := p.pageSize, p.pageSize / 2;
    if g < half {
      assert k * size == (k - 1) * size + size;
      assert 2 * ((k - 1) / 2) == k - 1;
      return (k - 1) / 2, g + half;
    }
    assert (k + 1) * size == k * size + size;
    assert 2 * ((k + 1) / 2) == k + 1;
    return (k + 1) / 2, g - half;
  }

  lemma LastPages(p: Pool, addr: nat, k: nat, g: nat)
    requires p.Valid() && p.Mapped(addr) && addr == p.first + k * p.pageSize + g && g < p.pageSize
    requires addr > p.first + 2 * (p.total - 1) * p.pageSize
    ensures k == 2 * (p.total - 1) || k == 2 * (p.total - 1) + 1
  {
    var size := p.pageSize;
    PageSign(k - 2 * (p.total - 1), g, size);
    assert (k - 2 * (p.total - 1)) * size == k * size - 2 * (p.total - 1) * size;
    PageSign(k - 2 * p.total, g, size);
    assert (k - 2 * p.total) * size == k * size - 2 * p.total * size;
  }

  /** For every address of the pool the nearest slot is one, and no other is closer. */
  lemma NearestSlot(p: Pool, addr: nat)
    requires p.Valid() && p.Mapped(addr)
    ensures 0 <= p.GetNearestSlot(addr) < p.total
    ensures forall t: nat :: t < p.total ==> p.Distance(addr, p.GetNearestSlot(addr)) <= p.Distance(addr, t)
  {
    EvenPage(p);
    var k := (addr - p.first) / p.pageSize;
    var g := (addr - p.first) % p.pageSize;
    assert addr == p.first + k * p.pageSize + g;
    var j, x := NearestIs(p, addr, k, g);
    OnPage(p, j, x);
    DistanceIs(p, addr, k, g, j);
    forall t: nat | t < p.total ensures p.Distance(addr, j) <= p.Distance(addr, t) { CloserThan(p, addr, k, g, j, t); }
  }

  lemma CloserThan(p: Pool, addr: nat, k: int, g: nat, j: nat, t: nat)
    requires p.Valid() && addr == p.first + k * p.pageSize + g && g < p.pageSize && t < p.total && j < p.total && p.pageSize % 2 == 0
    requires 2 * j == k || (2 * j == k + 1 && (k == -1 || g >= p.pageSize / 2)) ||
             (2 * j == k - 1 && (j == p.total - 1 || g < p.pageSize / 2))
    ensures p.Distance(addr, j) <= p.Distance(addr, t)
  {
    DistanceIs(p, addr, k, g, j);
    DistanceIs(p, addr, k, g, t);
    hide Pool.Distance, Pool.SlotToAddr;
    if 2 * j == k + 1 { assert (2 * j - k) * p.pageSize == p.pageSize; }
    if 2 * j == k - 1 { assert (k - 2 * j - 1) * p.pageSize == 0; }
  }

  // ----- which slots are taken -----

  function UpTo(n: nat): set<nat> { set i: nat | i < n && Below(i, n) }

  predicate Below(i: nat, n: nat) { i < n }

  lemma {:induction false} UpToCount(n: nat)
    ensures |UpTo(n)| == n
    decreases n
  {
    if n > 0 {
      UpToCount(n - 1);
      assert UpTo(n) == UpTo(n - 1) + {n - 1};
    }
  }

  /** With fewer slots taken than there are one is free. */
  lemma SomeFree(used: set<nat>, n: nat)
    requires used <= UpTo(n) && |used| < n
    ensures exists i: nat :: i < n && i !in used
  {
    UpToCount(n);
    assert UpTo(n) == used + (UpTo(n) - used);
    var i :| i in UpTo(n) - used;
  }

  /** What is known about the allocation last made on a slot, if any. */
  datatype Slot = Slot(start: nat, size: nat, deallocs: nat, overflow: bool)

  const NEVER := Slot(0, 0, 0, false)

  /** What a deallocation comes to. All but the first end the program. */
  datatype Outcome = Freed | DoubleFree | Overflowed | NotStart

  datatype ErrorType = Unknown | BufferUnderflow | BufferOverflow | BufferOverflowOnDealloc | UseAfterFree | DoubleFreed

  /** What a fault at `addr` is reported as. */
  function GetErrorType(addr: nat, d: Slot): ErrorType {
    if d.start == 0 then Unknown
    else if d.deallocs >= 2 then DoubleFreed
    else if d.overflow then BufferOverflowOnDealloc
    else if d.deallocs == 1 then UseAfterFree
    else if addr < d.start then BufferUnderflow
    else if addr >= d.start + d.size then BufferOverflow
    else Unknown
  }

  function Magic(slot: nat): nat { (0xcd * (slot / 2)) % 256 }

  predicate ShouldRightAlign(slot: nat) { slot % 2 == 0 }

  class GuardedPageAllocator {
    const pool: Pool
    const maxAllocated: nat
    /** The bytes of all pages, from the first guard page on. */
    const memory: array<nat>
    var initialized: bool
    var allowed: bool
    var used: set<nat>
    var allocatedPages: nat
    var data: seq<Slot>
    /** The slots the pages of which may be read and written; at all others memory access faults. */
    var open: set<nat>

    ghost predicate Valid()
      reads this`used, this`allocatedPages, this`data, this`open
    {
      Laid() && 0 < maxAllocated <= pool.total &&
      used <= UpTo(pool.total) && |used| == allocatedPages <= maxAllocated && |data| == pool.total && open <= used &&
      forall slot :: 0 <= slot < pool.total ==> SlotOk(slot, data[slot], slot in used, slot in open)
    }

    ghost predicate Laid() { pool.Valid() && memory.Length == (2 * pool.total + 1) * pool.pageSize }

    /** A slot that is neither taken back nor unused is taken; pages are open only in between; and a slot that was written
        past its end is never used again. */
    ghost predicate SlotOk(slot: nat, d: Slot, used: bool, open: bool) {
      (if d.start == 0 then d.size == 0 else OnSlot(slot, d)) && (d.start > 0 && d.deallocs == 0 ==> used) &&
      (open <==> d.size > 0 && d.deallocs == 0) && (d.overflow ==> used && d.deallocs > 0)
    }

    constructor (pool: Pool, maxAllocated: nat)
      requires pool.Valid() && 0 < maxAllocated <= pool.total
      ensures Valid() && this.pool == pool && this.maxAllocated == maxAllocated && used == {} && open == {} && initialized && !allowed
      ensures data == seq(pool.total, i => NEVER) && fresh(memory)
    {
      this.pool, this.maxAllocated := pool, maxAllocated;
      memory := new nat[(2 * pool.total + 1) * pool.pageSize];
      initialized, allowed, used, allocatedPages, data, open := true, false, {}, 0, seq(pool.total, i => NEVER), {};
    }

    /** Where `addr` is in `memory`. */
    function Place(addr: nat): int { addr - (pool.first - pool.pageSize) }

    /** The closest free slot at or before `idx`, or else after. */
    method GetFreeSlot(idx: nat) returns (slot: nat)
      requires Valid() && allocatedPages < maxAllocated && idx < pool.total
      ensures slot < pool.total && slot !in used
      ensures if slot <= idx then forall i: nat :: slot < i <= idx ==> i in used
              else forall i: nat :: i < slot ==> i in used
    {
      var back: int := idx;
      while back >= 0 && back in used
        invariant -1 <= back <= idx && forall i: nat :: back < i <= idx ==> i in used
      {
        back := back - 1;
      }
      if back >= 0 { return back; }
      SomeFree(used, pool.total);
      slot := idx;
      while slot in used
        invariant idx <= slot <= pool.total && forall i: nat :: i < slot ==> i in used
        decreases MAX_PAGES - slot
      {
        slot := slot + 1;
      }
    }

    /** A free slot, unless as many are taken as may be or none may be yet. */
    method ReserveFreeSlot(rand: nat) returns (slot: Option<nat>)
      requires Valid()
      modifies this`used, this`allocatedPages
      ensures Valid() && (slot.None? <==> !initialized || !allowed || old(allocatedPages) == maxAllocated)
      ensures slot.None? ==> used == old(used)
      ensures slot.Some? ==> slot.value < pool.total && slot.value !in old(used) && used == old(used) + {slot.value}
    {
      hide SlotOk;
      if !initialized || !allowed || allocatedPages == maxAllocated { return None; }
      var s := GetFreeSlot(rand % pool.total);
      StaysOk(s, true, data[s]);
      used := used + {s};
      allocatedPages := allocatedPages + 1;
      slot := Some(s);
      assert s in UpTo(pool.total);
    }

    /** A closed slot that is taken, or given up when it was taken back. */
    lemma StaysOk(slot: nat, taken: bool, d: Slot)
      requires SlotOk(slot, d, slot in used, false) && (taken || (!d.overflow && (d.start > 0 ==> d.deallocs > 0)))
      ensures SlotOk(slot, d, taken, false)
    {
    }

    method FreeSlot(slot: nat)
      requires Valid() && slot in used && slot < pool.total && slot !in open && !data[slot].overflow
      requires data[slot].start > 0 ==> data[slot].deallocs > 0
      modifies this`used, this`allocatedPages
      ensures Valid() && used == old(used) - {slot}
    {
      hide SlotOk;
      StaysOk(slot, false, data[slot]);
      used := used - {slot};
      allocatedPages := allocatedPages - 1;
    }

    /** The bytes between the end of an allocation and the end of its page that are watched. */
    predicate Watched(slot: nat, s: Slot, addr: nat) {
      s.start + s.size <= addr < Least(pool.SlotToAddr(slot) + pool.pageSize, s.start + s.size + MAGIC_SIZE)
    }

    /** The allocation is on the page of its slot. */
    ghost predicate OnSlot(slot: nat, s: Slot) {
      pool.SlotToAddr(slot) <= s.start && s.start + s.size <= pool.SlotToAddr(slot) + pool.pageSize
    }

    /** Write `count` bytes from `from` on. */
    method Fill(from: nat, count: nat, value: nat)
      requires 0 <= Place(from) && Place(from) + count <= memory.Length
      modifies memory
      ensures forall i :: Place(from) <= i < Place(from) + count ==> memory[i] == value
      ensures forall i :: 0 <= i < memory.Length && !(Place(from) <= i < Place(from) + count) ==> memory[i] == old(memory[i])
    {
      var k := 0;
      while k < count
        invariant k <= count
        invariant forall i :: Place(from) <= i < Place(from) + k ==> memory[i] == value
        invariant forall i :: 0 <= i < memory.Length && !(Place(from) <= i < Place(from) + k) ==> memory[i] == old(memory[i])
      {
        memory[Place(from) + k] := value;
        k := k + 1;
      }
    }

    /** Put the allocation at the right end of its page, as far as alignment allows, and fill the first
        bytes of the gap. */
    method MaybeRightAlign(slot: nat, size: nat, alignment: nat) returns (start: nat)
      requires Laid() && slot < pool.total && 0 < size <= pool.pageSize
      requires alignment == 0 || (IsPower(alignment) && alignment <= pool.pageSize)
      modifies memory
      ensures OnSlot(slot, Slot(start, size, 0, false)) && (alignment > 0 ==> start % alignment == 0)
      ensures ShouldRightAlign(slot) ==> pool.SlotToAddr(slot) + pool.pageSize - (start + size) < AlignTo(size, alignment)
      ensures ShouldRightAlign(slot) ==> Canary(slot, Slot(start, size, 0, false))
      ensures !ShouldRightAlign(slot) ==> start == pool.SlotToAddr(slot)
      ensures forall addr: nat :: 0 <= Place(addr) < memory.Length && !Watched(slot, Slot(start, size, 0, false), addr) ==>
                memory[Place(addr)] == old(memory[Place(addr)])
    {
      hide AlignTo;
      start := pool.SlotToAddr(slot);
      SlotAligned(pool, slot, alignment);
      if !ShouldRightAlign(slot) { return; }
      RightAligned(start, pool.pageSize, size, alignment);
      var adjusted := start + pool.pageSize - size;
      var padding := adjusted % AlignTo(size, alignment);
      var magicSize := Least(padding, MAGIC_SIZE);
      start := adjusted - padding;
      GapInside(slot, Slot(start, size, 0, false));
      Fill(start + size, magicSize, Magic(slot));
    }

    /** The watched bytes are as they were written. */
    ghost predicate Canary(slot: nat, s: Slot)
      reads memory
    {
      forall addr: nat :: Watched(slot, s, addr) ==> 0 <= Place(addr) < memory.Length && memory[Place(addr)] == Magic(slot)
    }

    lemma GapInside(slot: nat, s: Slot)
      requires Laid() && slot < pool.total && OnSlot(slot, s)
      ensures 0 <= Place(s.start + s.size) && Place(pool.SlotToAddr(slot) + pool.pageSize) <= memory.Length
    {
      var size := pool.pageSize;
      MulLe(2 * slot + 2, 2 * pool.total, size);
      MulLe(0, 2 * slot, size);
      assert 2 * slot * size + size + size == (2 * slot + 2) * size;
      assert (2 * pool.total + 1) * size == 2 * pool.total * size + size;
    }

    /** Whether any watched byte was overwritten. */
    method WriteOverflowOccurred(slot: nat, s: Slot) returns (overflow: bool)
      requires Laid() && slot < pool.total && OnSlot(slot, s)
      ensures overflow <==> ShouldRightAlign(slot) && !Canary(slot, s)
    {
      if !ShouldRightAlign(slot) { return false; }
      GapInside(slot, s);
      var end := s.start + s.size;
      var magicEnd := Least(pool.SlotToAddr(slot) + pool.pageSize, end + MAGIC_SIZE);
      var p := end;
      while p < magicEnd
        invariant end <= p && p <= Most(end, magicEnd) && forall addr: nat :: end <= addr < p ==> memory[Place(addr)] == Magic(slot)
      {
        if memory[Place(p)] != Magic(slot) {
          assert Watched(slot, s, p);
          return true;
        }
        p := p + 1;
      }
      return false;
    }

    /** Serve `size` bytes on a page of their own, if there is a slot and its page can be opened. No byte is written but
        those to be watched. */
    method Allocate(size: nat, alignment: nat, rand: nat, opens: bool) returns (start: Option<nat>, slot: nat)
      requires Valid() && size <= pool.pageSize && (alignment == 0 || (IsPower(alignment) && alignment <= pool.pageSize))
      modifies this`used, this`allocatedPages, this`data, this`open, memory
      ensures Valid() && (start.Some? <==> initialized && allowed && old(allocatedPages) < maxAllocated && (size == 0 || opens))
      ensures start.None? ==> used == old(used) && data == old(data) && open == old(open) && memory[..] == old(memory[..])
      ensures start.Some? ==>
                slot < pool.total && slot !in old(used) && used == old(used) + {slot} && data == old(data)[slot := Slot(start.value, size, 0, false)] &&
                open == (if size > 0 then old(open) + {slot} else old(open)) && start.value > 0 && (alignment > 0 ==> start.value % alignment == 0) &&
                (size > 0 && ShouldRightAlign(slot) ==> Canary(slot, data[slot])) &&
                forall addr: nat :: 0 <= Place(addr) < memory.Length && !(size > 0 && Watched(slot, data[slot], addr)) ==>
                  memory[Place(addr)] == old(memory[Place(addr)])
    {
      hide SlotOk, IsPower, Canary, GuardedPageAllocator.OnSlot;
      slot := 0;
      var free := ReserveFreeSlot(rand);
      if free.None? { return None, slot; }
      slot := free.value;
      WasFree(slot, data[slot]);
      if size > 0 && !opens {
        FreeSlot(slot);
        assert used == old(used);
        return None, slot;
      }
      var at := PlaceOn(slot, size, alignment);
      start := Some(at);
    }

    /** Put an allocation of `size` bytes on a slot that was just taken. */
    method PlaceOn(slot: nat, size: nat, alignment: nat) returns (at: nat)
      requires Valid() && slot < pool.total && slot in used && slot !in open && !data[slot].overflow
      requires size <= pool.pageSize && (alignment == 0 || (IsPower(alignment) && alignment <= pool.pageSize))
      modifies this`data, this`open, memory
      ensures Valid() && data == old(data)[slot := Slot(at, size, 0, false)] && open == (if size > 0 then old(open) + {slot} else old(open))
      ensures at > 0 && (alignment > 0 ==> at % alignment == 0) && (size > 0 && ShouldRightAlign(slot) ==> Canary(slot, data[slot]))
      ensures forall addr: nat :: 0 <= Place(addr) < memory.Length && !(size > 0 && Watched(slot, data[slot], addr)) ==>
                memory[Place(addr)] == old(memory[Place(addr)])
    {
      hide SlotOk, IsPower, Canary, UpTo;
      at := pool.SlotToAddr(slot);
      SlotAligned(pool, slot, alignment);
      if size > 0 {
        at := MaybeRightAlign(slot, size, alignment);
        open := open + {slot};
      }
      IsOk(slot, at, size);
      data := data[slot := Slot(at, size, 0, data[slot].overflow)];
    }

    /** A slot that is not taken was taken back or never used, and not written past its end. */
    lemma WasFree(slot: nat, d: Slot)
      requires SlotOk(slot, d, false, false)
      ensures !d.overflow && (d.start > 0 ==> d.deallocs > 0)
    {
    }

    lemma IsOk(slot: nat, at: nat, size: nat)
      requires pool.Valid() && OnSlot(slot, Slot(at, size, 0, false))
      ensures at > 0 && SlotOk(slot, Slot(at, size, 0, false), true, size > 0)
    {
    }

    /** Take back the allocation that `ptr` points to. A slot that was taken back already is a double free; one that was
        written past its end is reported; so is a pointer to anything but the start. Before a fault is forced the page is
        closed, and the fault is reported for what it is. */
    method Deallocate(ptr: nat, ghost slot: nat) returns (outcome: Outcome)
      requires Valid() && slot < pool.total && pool.SlotToAddr(slot) <= ptr < pool.SlotToAddr(slot) + pool.pageSize
      modifies this`used, this`allocatedPages, this`data, this`open
      ensures Valid() && used == (if outcome.Freed? then old(used) - {slot} else old(used)) && (outcome.Freed? ==> slot in old(used))
      ensures outcome.DoubleFree? <==> old(data)[slot].deallocs > 0
      ensures outcome.Overflowed? <==>
                old(data)[slot].deallocs == 0 && old(data)[slot].size > 0 && ShouldRightAlign(slot) && !Canary(slot, old(data)[slot])
      ensures outcome.Freed? ==> old(data)[slot].start == ptr
      ensures outcome.NotStart? ==> old(data)[slot].start != ptr
      ensures slot !in open && open == old(open) - {slot}
      ensures data == old(data)[slot := Slot(old(data)[slot].start, old(data)[slot].size, old(data)[slot].deallocs + 1, data[slot].overflow)]
      ensures data[slot].start > 0 && outcome.DoubleFree? ==> GetErrorType(ptr, data[slot]) == DoubleFreed
      ensures outcome.Overflowed? ==> GetErrorType(ptr, data[slot]) == BufferOverflowOnDealloc
      ensures outcome.Freed? ==> forall addr :: GetErrorType(addr, data[slot]) == UseAfterFree
    {
      OnPage(pool, slot, ptr - pool.SlotToAddr(slot));
      var s := pool.AddrToSlot(pool.GetPageAddr(ptr));
      assert s == slot && s in UpTo(pool.total);
      var d := data[s];
      data := data[s := d.(deallocs := d.deallocs + 1)];
      if d.deallocs != 0 { return DoubleFree; }
      var overflow := false;
      if d.size > 0 {
        overflow := WriteOverflowOccurred(s, d);
        open := open - {s};
        data := data[s := data[s].(overflow := overflow)];
        if overflow { return Overflowed; }
      }
      if d.start != ptr { return NotStart; }
      FreeSlot(s);
      outcome := Freed;
    }
  }

  lemma SlotAligned(p: Pool, slot: nat, alignment: nat)
    requires p.Valid() && (alignment == 0 || (IsPower(alignment) && alignment <= p.pageSize))
    ensures p.SlotToAddr(slot) % p.pageSize == 0 && (alignment > 0 ==> p.SlotToAddr(slot) % alignment == 0)
  {
    var f := p.first / p.pageSize;
    assert p.first == f * p.pageSize;
    assert p.SlotToAddr(slot) == (f + 2 * slot) * p.pageSize;
    Multiple(f + 2 * slot, p.pageSize);
    if alignment > 0 {
      Divides(alignment, p.pageSize);
      ModZero(p.SlotToAddr(slot), p.pageSize, alignment);
    }
  }
}

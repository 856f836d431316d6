/** Programs that use guarded allocations: no allocation is reported if the bytes watched were left alone. */
module GuardedRuns {
  import opened Lists
  import opened GuardedPages

  /** What a program does. Alignments are powers of two; memory that is not open cannot be written. */
  datatype Action =
    | Allocate(size: nat, log: Option<nat>, rand: nat, opens: bool)
    | Write(addr: nat, value: nat)
    | Deallocate(ptr: nat)

  /** A deallocation, and whether it was of a live allocation, by its start, with the watched bytes left alone. */
  datatype Report = Report(outcome: Outcome, touched: bool, proper: bool)

  ghost predicate On(g: GuardedPageAllocator, slot: nat, addr: nat) {
    slot < g.pool.total && g.pool.SlotToAddr(slot) <= addr < g.pool.SlotToAddr(slot) + g.pool.pageSize
  }

  /** The slot on the page of which `addr` is, if any. */
  method SlotOf(g: GuardedPageAllocator, addr: nat) returns (slot: Option<nat>)
    requires g.pool.Valid()
    ensures if slot.Some? then On(g, slot.value, addr) else forall k: nat :: !On(g, k, addr)
  {
    var p := g.pool;
    if addr < p.first {
      Before(g, addr);
      return None;
    }
    var k := p.AddrToSlot(p.GetPageAddr(addr));
    forall j: nat | On(g, j, addr) ensures k == j { OnPage(p, j, addr - p.SlotToAddr(j)); }
    if 0 <= k < p.total && p.SlotToAddr(k) <= addr < p.SlotToAddr(k) + p.pageSize { return Some(k); }
    return None;
  }

  lemma Before(g: GuardedPageAllocator, addr: nat)
    requires addr < g.pool.first
    ensures forall k: nat :: !On(g, k, addr)
  {
  }

  /** An address is on one page only. */
  lemma OnOne(g: GuardedPageAllocator, j: nat, k: nat, addr: nat)
    requires g.pool.Valid() && On(g, j, addr) && On(g, k, addr)
    ensures j == k
  {
    OnPage(g.pool, j, addr - g.pool.SlotToAddr(j));
    OnPage(g.pool, k, addr - g.pool.SlotToAddr(k));
  }

  lemma WatchedOn(g: GuardedPageAllocator, slot: nat, d: Slot, addr: nat)
    requires slot < g.pool.total && g.OnSlot(slot, d) && g.Watched(slot, d, addr)
    ensures On(g, slot, addr)
  {
  }

  /** On every open page the watched bytes that were left alone are as they were written. */
  ghost predicate Tidy(g: GuardedPageAllocator, dirty: set<nat>)
    reads g, g.memory
  {
    g.Valid() && forall slot :: slot in g.open && slot !in dirty && ShouldRightAlign(slot) ==> slot < |g.data| && g.Canary(slot, g.data[slot])
  }

  lemma OpenSlot(g: GuardedPageAllocator, slot: nat)
    requires g.Valid() && slot < g.pool.total
    ensures slot < |g.data| && (slot in g.open <==> g.data[slot].size > 0 && g.data[slot].deallocs == 0)
    ensures slot in g.open ==> g.OnSlot(slot, g.data[slot])
  {
    assert g.SlotOk(slot, g.data[slot], slot in g.used, slot in g.open);
  }

  /** `bytes` has the watched bytes as they were written. */
  ghost predicate Intact(g: GuardedPageAllocator, bytes: seq<nat>, slot: nat, d: Slot) {
    forall addr: nat :: g.Watched(slot, d, addr) ==> 0 <= g.Place(addr) < |bytes| && bytes[g.Place(addr)] == Magic(slot)
  }

  lemma IsIntact(g: GuardedPageAllocator, slot: nat, d: Slot)
    ensures g.Canary(slot, d) <==> Intact(g, g.memory[..], slot, d)
  {
    forall addr: nat | 0 <= g.Place(addr) < g.memory.Length ensures g.memory[..][g.Place(addr)] == g.memory[g.Place(addr)] { }
  }

  /** Only bytes on the page of another slot have changed. */
  ghost predicate ChangedOn(g: GuardedPageAllocator, slot: nat, before: seq<nat>, after: seq<nat>) {
    |before| == |after| && forall addr: nat :: 0 <= g.Place(addr) < |before| && !On(g, slot, addr) ==> after[g.Place(addr)] == before[g.Place(addr)]
  }

  lemma OthersIntact(g: GuardedPageAllocator, before: seq<nat>, after: seq<nat>, slot: nat, k: nat, d: Slot)
    requires g.pool.Valid() && ChangedOn(g, slot, before, after) && k != slot && k < g.pool.total && g.OnSlot(k, d) && Intact(g, before, k, d)
    ensures Intact(g, after, k, d)
  {
    forall addr: nat | g.Watched(k, d, addr) ensures 0 <= g.Place(addr) < |after| && after[g.Place(addr)] == Magic(k) {
      WatchedOn(g, k, d, addr);
      if On(g, slot, addr) { OnOne(g, slot, k, addr); }
    }
  }

  /** What is known of the pages left alone. */
  lemma TidyParts(g: GuardedPageAllocator, dirty: set<nat>)
    requires Tidy(g, dirty)
    ensures forall k :: k in g.open ==> k < g.pool.total && k < |g.data| && g.OnSlot(k, g.data[k])
    ensures forall k :: k in g.open && k !in dirty && ShouldRightAlign(k) ==> k < |g.data| && Intact(g, g.memory[..], k, g.data[k])
  {
    forall k | k in g.open ensures k < g.pool.total && k < |g.data| && g.OnSlot(k, g.data[k]) {
      assert k in UpTo(g.pool.total);
      OpenSlot(g, k);
    }
    hide GuardedPageAllocator.Valid, GuardedPageAllocator.Canary, Intact;
    forall k | k in g.open && k !in dirty && ShouldRightAlign(k) ensures Intact(g, g.memory[..], k, g.data[k]) { IsIntact(g, k, g.data[k]); }
  }

  lemma TidyWhole(g: GuardedPageAllocator, dirty: set<nat>)
    requires g.Valid() && forall k :: k in g.open && k !in dirty && ShouldRightAlign(k) ==> k < |g.data| && Intact(g, g.memory[..], k, g.data[k])
    ensures Tidy(g, dirty)
  {
    hide GuardedPageAllocator.Valid, GuardedPageAllocator.Canary, Intact;
    forall k | k in g.open && k !in dirty && ShouldRightAlign(k) ensures g.Canary(k, g.data[k]) { IsIntact(g, k, g.data[k]); }
  }

  /** What an allocation changes is on its page. */
  lemma AllocatedOn(g: GuardedPageAllocator, slot: nat, d: Slot, before: seq<nat>)
    requires slot < g.pool.total && g.OnSlot(slot, d) && |before| == g.memory.Length
    requires forall addr: nat :: 0 <= g.Place(addr) < g.memory.Length && !(d.size > 0 && g.Watched(slot, d, addr)) ==>
               g.memory[g.Place(addr)] == before[g.Place(addr)]
    ensures ChangedOn(g, slot, before, g.memory[..])
  {
  }

  method AllocateStep(g: GuardedPageAllocator, size: nat, log: Option<nat>, rand: nat, opens: bool, dirty: set<nat>) returns (dirty': set<nat>)
    requires Tidy(g, dirty)
    modifies g`used, g`allocatedPages, g`data, g`open, g.memory
    ensures Tidy(g, dirty') && dirty' <= dirty
  {
    TidyParts(g, dirty);
    hide GuardedPageAllocator.Valid, GuardedPageAllocator.Canary, GuardedPageAllocator.Watched, GuardedPageAllocator.Place, GuardedPageAllocator.OnSlot, Intact,
      ChangedOn, Pow;
    dirty' := dirty;
    var alignment := if log.Some? then Pow(log.value) else 0;
    if size > g.pool.pageSize || alignment > g.pool.pageSize { return; }
    ghost var before := g.memory[..];
    var start, slot := g.Allocate(size, alignment, rand, opens);
    if start.None? {
      TidyWhole(g, dirty);
      return;
    }
    dirty' := dirty - {slot};
    OpenSlot(g, slot);
    if size > 0 { IsIntact(g, slot, g.data[slot]); }
    OnItsPage(g, slot);
    AllocatedOn(g, slot, g.data[slot], before);
    forall k | k in g.open && k !in dirty' && ShouldRightAlign(k) ensures k < |g.data| && Intact(g, g.memory[..], k, g.data[k]) {
      if k != slot { OthersIntact(g, before, g.memory[..], slot, k, g.data[k]); }
    }
    TidyWhole(g, dirty');
  }

  lemma OnItsPage(g: GuardedPageAllocator, slot: nat)
    requires g.Valid() && slot < g.pool.total && slot < |g.data| && g.data[slot].start > 0
    ensures g.OnSlot(slot, g.data[slot])
  {
    assert g.SlotOk(slot, g.data[slot], slot in g.used, slot in g.open);
  }

  ghost predicate IsWatched(g: GuardedPageAllocator, slot: nat, addr: nat)
    reads g`data
  {
    slot < |g.data| && g.Watched(slot, g.data[slot], addr)
  }

  lemma WatchedByOne(g: GuardedPageAllocator, addr: nat)
    requires g.Valid()
    ensures forall j, k :: j in g.open && IsWatched(g, j, addr) && On(g, k, addr) ==> j == k
    ensures forall j :: j in g.open && IsWatched(g, j, addr) ==> On(g, j, addr)
  {
    forall j, k | j in g.open && IsWatched(g, j, addr) && On(g, k, addr) ensures j == k {
      assert j in UpTo(g.pool.total);
      OpenSlot(g, j);
      WatchedOn(g, j, g.data[j], addr);
      OnOne(g, j, k, addr);
    }
    forall j | j in g.open && IsWatched(g, j, addr) ensures On(g, j, addr) {
      assert j in UpTo(g.pool.total);
      OpenSlot(g, j);
      WatchedOn(g, j, g.data[j], addr);
    }
  }

  /** The program writes a byte; if that is one of those watched, the allocation was not left alone. */
  method WriteStep(g: GuardedPageAllocator, addr: nat, value: nat, dirty: set<nat>) returns (dirty': set<nat>, hit: bool)
    requires Tidy(g, dirty)
    modifies g.memory
    ensures Tidy(g, dirty') && (hit <==> exists slot :: slot in g.open && IsWatched(g, slot, addr))
    ensures forall slot :: slot in dirty' <==> slot in dirty || (slot in g.open && IsWatched(g, slot, addr))
  {
    TidyParts(g, dirty);
    Inside(g, addr);
    WatchedByOne(g, addr);
    hide GuardedPageAllocator.Valid, GuardedPageAllocator.Canary, GuardedPageAllocator.Watched, GuardedPageAllocator.OnSlot, Intact, ChangedOn;
    dirty', hit := dirty, false;
    var on := SlotOf(g, addr);
    if on.None? || on.value !in g.open { return; }
    var slot := on.value;
    ghost var before := g.memory[..];
    g.memory[g.Place(addr)] := value;
    if g.Watched(slot, g.data[slot], addr) { dirty', hit := dirty' + {slot}, true; }
    WrittenOn(g, slot, addr, before);
    forall k | k in g.open && k !in dirty' && ShouldRightAlign(k) ensures k < |g.data| && Intact(g, g.memory[..], k, g.data[k]) {
      if k != slot {
        OthersIntact(g, before, g.memory[..], slot, k, g.data[k]);
      } else {
        NotWatched(g, slot, g.data[slot], addr, before);
      }
    }
    TidyWhole(g, dirty');
  }

  lemma Inside(g: GuardedPageAllocator, addr: nat)
    requires g.Valid()
    ensures forall slot: nat :: On(g, slot, addr) ==> 0 <= g.Place(addr) < g.memory.Length
  {
    forall slot: nat | On(g, slot, addr) ensures 0 <= g.Place(addr) < g.memory.Length {
      g.GapInside(slot, Slot(g.pool.SlotToAddr(slot), 0, 0, false));
    }
  }

  lemma WrittenOn(g: GuardedPageAllocator, slot: nat, addr: nat, before: seq<nat>)
    requires On(g, slot, addr) && |before| == g.memory.Length && 0 <= g.Place(addr) < |before|
    requires g.memory[..] == before[g.Place(addr) := g.memory[g.Place(addr)]]
    ensures ChangedOn(g, slot, before, g.memory[..])
  {
  }

  lemma NotWatched(g: GuardedPageAllocator, slot: nat, d: Slot, addr: nat, before: seq<nat>)
    requires Intact(g, before, slot, d) && !g.Watched(slot, d, addr) && |before| == g.memory.Length && 0 <= g.Place(addr) < |before|
    requires g.memory[..] == before[g.Place(addr) := g.memory[g.Place(addr)]]
    ensures Intact(g, g.memory[..], slot, d)
  {
  }

  /** A deallocation; of a pointer to no slot's page nothing is known. */
  method DeallocateStep(g: GuardedPageAllocator, ptr: nat, dirty: set<nat>) returns (report: Option<Report>)
    requires Tidy(g, dirty)
    modifies g`used, g`allocatedPages, g`data, g`open
    ensures Tidy(g, dirty) && (report.Some? <==> exists k: nat :: On(g, k, ptr))
    ensures forall k: nat :: On(g, k, ptr) ==>
              report.value.touched == (k in dirty) && report.value.proper == (k !in dirty && old(g.data)[k].deallocs == 0 && old(g.data)[k].start == ptr)
    ensures report.Some? && report.value.outcome.Overflowed? ==> report.value.touched
    ensures report.Some? && report.value.proper ==> report.value.outcome.Freed?
  {
    TidyParts(g, dirty);
    hide GuardedPageAllocator.Valid, GuardedPageAllocator.Canary, GuardedPageAllocator.OnSlot, GuardedPageAllocator.Watched, GuardedPageAllocator.Place, Intact;
    forall j: nat, k: nat | On(g, j, ptr) && On(g, k, ptr) ensures j == k { OnOne(g, j, k, ptr); }
    var on := SlotOf(g, ptr);
    if on.None? { return None; }
    var slot := on.value;
    OpenSlot(g, slot);
    IsIntact(g, slot, g.data[slot]);
    var touched, live := slot in dirty, g.data[slot].deallocs == 0 && g.data[slot].start == ptr;
    var outcome := g.Deallocate(ptr, slot);
    TidyWhole(g, dirty);
    report := Some(Report(outcome, touched, live && !touched));
  }

  /** However a program allocates, writes and deallocates: an overflow is reported only if a watched byte was written (`hits` counts how often), and whoever
      deallocates a live allocation by its start and has left the watched bytes alone is not reported at all. */
  method Run(g: GuardedPageAllocator, actions: seq<Action>, dirty: set<nat>) returns (reports: seq<Report>, dirty': set<nat>, hits: nat)
    requires Tidy(g, dirty)
    modifies g, g.memory
    ensures Tidy(g, dirty')
    ensures hits == 0 ==> dirty' <= dirty && (dirty == {} ==> forall i :: 0 <= i < |reports| ==> !reports[i].touched && !reports[i].outcome.Overflowed?)
    ensures forall i :: 0 <= i < |reports| ==> (reports[i].outcome.Overflowed? ==> reports[i].touched) && (reports[i].proper ==> reports[i].outcome.Freed?)
  {
    hide Tidy;
    reports, dirty', hits := [], dirty, 0;
    for i := 0 to |actions|
      invariant Tidy(g, dirty') && (hits == 0 ==> dirty' <= dirty && (dirty == {} ==> forall i :: 0 <= i < |reports| ==> !reports[i].touched))
      invariant forall i :: 0 <= i < |reports| ==> (reports[i].outcome.Overflowed? ==> reports[i].touched) && (reports[i].proper ==> reports[i].outcome.Freed?)
    {
      match actions[i] {
        case Allocate(size, log, rand, opens) => dirty' := AllocateStep(g, size, log, rand, opens, dirty');
        case Write(addr, value) =>
          var hit;
          dirty', hit := WriteStep(g, addr, value, dirty');
          if hit { hits := hits + 1; }
        case Deallocate(ptr) =>
          var report := DeallocateStep(g, ptr, dirty');
          if report.Some? { reports := reports + [report.value]; }
      }
    }
  }
}

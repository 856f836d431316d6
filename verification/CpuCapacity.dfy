/** Capacity that moves between size classes and CPUs, one atomic step at a time
    (tcmalloc/cpu_cache.h). */
module CpuCapacity {
  /** One CPU's cache: bytes of capacity in all, those no class has, and what each class has, in objects. */
  datatype Cpu = Cpu(capacity: int, available: int, caps: seq<nat>)

  /** What a thread is in the middle of, and the bytes of capacity it has in hand. */
  datatype Thread =
    | Idle
    | Growing(cpu: nat, cls: nat, bytes: nat)
    | Returning(cpu: nat, bytes: nat)
    | Resizing(cpu: nat, bytes: nat)
    | Stealing(dest: nat, acquired: nat)
    | Taking(dest: nat, acquired: nat, src: nat, stolen: nat)
    | Giving(dest: nat, acquired: nat)
  {
    predicate Thief() { Stealing? || Taking? || Giving? }
  }

  /** All CPUs' caches, and what each thread is in the middle of. */
  datatype State = State(cpus: seq<Cpu>, threads: seq<Thread>)

  /** The atomic steps. What the slab answers, and whom a thief picks, is part of the step. */
  datatype Step =
    | GrowTake(t: nat, cpu: nat, cls: nat, desired: nat)
    | GrowSlab(t: nat, increase: nat)
    | GiveBack(t: nat)
    | ResizeTake(t: nat, cpu: nat)
    | ResizeShrink(t: nat, cls: nat)
    | ResizeGrow(t: nat, cls: nat, got: nat)
    | ResizeEnd(t: nat)
    | DrainTake(t: nat, cpu: nat, cls: nat)
    | StealStart(t: nat, dest: nat)
    | StealAvailable(t: nat, src: nat, max: nat)
    | StealShrink(t: nat, src: nat, cls: nat)
    | StealPay(t: nat)
    | StealGive(t: nat)
    | StealEnd(t: nat)

  /** `subtract_at_least`: all of `cur` up to `max`, or nothing if `cur` is less than `min`. */
  function SubtractAtLeast(cur: int, min: nat, max: nat): int {
    if cur < min then 0 else if cur < max then cur else max
  }

  /** A step of a thread; one that is not possible changes nothing. */
  function Next(sizes: seq<nat>, s: State, step: Step): State {
    if step.t >= |s.threads| then s
    else
      var th := s.threads[step.t];
      match step
      case GrowTake(t, cpu, cls, desired) =>
        if th.Idle? && cpu < |s.cpus| && cls < |sizes| && sizes[cls] > 0 then
          var got := SubtractAtLeast(s.cpus[cpu].available, sizes[cls], desired * sizes[cls]);
          if got <= 0 then s else Set(s, t, Growing(cpu, cls, got), cpu, s.cpus[cpu].(available := s.cpus[cpu].available - got))
        else s
      case GrowSlab(t, increase) =>
        if th.Growing? && th.cpu < |s.cpus| && th.cls < |sizes| && th.cls < |s.cpus[th.cpu].caps| && increase * sizes[th.cls] <= th.bytes then
          var c := s.cpus[th.cpu];
          Set(s, t, Returning(th.cpu, th.bytes - increase * sizes[th.cls]), th.cpu, c.(caps := c.caps[th.cls := c.caps[th.cls] + increase]))
        else s
      case GiveBack(t) =>
        if th.Returning? && th.cpu < |s.cpus| then
          Set(s, t, Idle, th.cpu, s.cpus[th.cpu].(available := s.cpus[th.cpu].available + th.bytes))
        else s
      case ResizeTake(t, cpu) =>
        if th.Idle? && cpu < |s.cpus| && s.cpus[cpu].available >= 0 then
          Set(s, t, Resizing(cpu, s.cpus[cpu].available), cpu, s.cpus[cpu].(available := 0))
        else s
      case ResizeShrink(t, cls) =>
        if th.Resizing? && th.cpu < |s.cpus| && cls < |sizes| && cls < |s.cpus[th.cpu].caps| && s.cpus[th.cpu].caps[cls] > 0 then
          var c := s.cpus[th.cpu];
          Set(s, t, Resizing(th.cpu, th.bytes + sizes[cls]), th.cpu, c.(caps := c.caps[cls := c.caps[cls] - 1]))
        else s
      case ResizeGrow(t, cls, got) =>
        if th.Resizing? && th.cpu < |s.cpus| && cls < |sizes| && cls < |s.cpus[th.cpu].caps| && got * sizes[cls] <= th.bytes then
          var c := s.cpus[th.cpu];
          Set(s, t, Resizing(th.cpu, th.bytes - got * sizes[cls]), th.cpu, c.(caps := c.caps[cls := c.caps[cls] + got]))
        else s
      case ResizeEnd(t) =>
        if th.Resizing? && th.cpu < |s.cpus| then
          Set(s, t, Idle, th.cpu, s.cpus[th.cpu].(available := s.cpus[th.cpu].available + th.bytes))
        else s
      case DrainTake(t, cpu, cls) =>
        if th.Idle? && cpu < |s.cpus| && cls < |sizes| && cls < |s.cpus[cpu].caps| then
          var c := s.cpus[cpu];
          Set(s, t, Returning(cpu, c.caps[cls] * sizes[cls]), cpu, c.(caps := c.caps[cls := 0]))
        else s
      case StealStart(t, dest) =>
        if th.Idle? && dest < |s.cpus| then s.(threads := s.threads[t := Stealing(dest, 0)]) else s
      case StealAvailable(t, src, max) =>
        if th.Stealing? && src < |s.cpus| && src != th.dest && s.cpus[src].available >= 0 then
          var got := SubtractAtLeast(s.cpus[src].available, 0, max);
          Set(s, t, Taking(th.dest, th.acquired, src, got), src, s.cpus[src].(available := s.cpus[src].available - got))
        else s
      case StealShrink(t, src, cls) =>
        if th.Stealing? && src < |s.cpus| && src != th.dest && cls < |sizes| && cls < |s.cpus[src].caps| && s.cpus[src].caps[cls] > 0 then
          var c := s.cpus[src];
          Set(s, t, Taking(th.dest, th.acquired, src, sizes[cls]), src, c.(caps := c.caps[cls := c.caps[cls] - 1]))
        else s
      case StealPay(t) =>
        if th.Taking? && th.src < |s.cpus| then
          Set(s, t, Stealing(th.dest, th.acquired + th.stolen), th.src, s.cpus[th.src].(capacity := s.cpus[th.src].capacity - th.stolen))
        else s
      case StealGive(t) =>
        if th.Stealing? && th.dest < |s.cpus| then
          Set(s, t, Giving(th.dest, th.acquired), th.dest, s.cpus[th.dest].(available := s.cpus[th.dest].available + th.acquired))
        else s
      case StealEnd(t) =>
        if th.Giving? && th.dest < |s.cpus| then
          Set(s, t, Idle, th.dest, s.cpus[th.dest].(capacity := s.cpus[th.dest].capacity + th.acquired))
        else s
  }

  function Set(s: State, t: nat, th: Thread, cpu: nat, c: Cpu): State
    requires t < |s.threads| && cpu < |s.cpus|
  {
    State(s.cpus[cpu := c], s.threads[t := th])
  }

  // ----- where the bytes are -----

  function Bytes(sizes: seq<nat>, caps: seq<nat>): nat
    requires |sizes| == |caps|
  {
    if caps == [] then 0 else sizes[0] * caps[0] + Bytes(sizes[1..], caps[1..])
  }

  lemma {:induction false} BytesSet(sizes: seq<nat>, caps: seq<nat>, k: nat, v: nat)
    requires |sizes| == |caps| && k < |caps|
    ensures Bytes(sizes, caps[k := v]) == Bytes(sizes, caps) - sizes[k] * caps[k] + sizes[k] * v
    decreases caps
  {
    if k > 0 {
      BytesSet(sizes[1..], caps[1..], k - 1, v);
      assert caps[k := v][1..] == caps[1..][k - 1 := v];
    } else {
      assert caps[k := v][1..] == caps[1..];
    }
  }

  /** What a thread has in hand of the capacity of `cpu`; a thief that has given but not yet told
      owes it. */
  ghost function InHand(th: Thread, cpu: nat): int {
    match th
    case Idle => 0
    case Growing(c, k, b) => if c == cpu then b else 0
    case Returning(c, b) => if c == cpu then b else 0
    case Resizing(c, b) => if c == cpu then b else 0
    case Stealing(d, a) => 0
    case Taking(d, a, src, stolen) => if src == cpu then stolen else 0
    case Giving(d, a) => var owed: int := a; if d == cpu then -owed else 0
  }

  /** What a thread has taken away from one CPU and not yet added to another. */
  ghost function Loot(th: Thread): nat { if th.Thief() then th.acquired else 0 }

  ghost function Hands(threads: seq<Thread>, cpu: nat): int {
    if threads == [] then 0 else InHand(threads[0], cpu) + Hands(threads[1..], cpu)
  }

  ghost function AllLoot(threads: seq<Thread>): nat {
    if threads == [] then 0 else Loot(threads[0]) + AllLoot(threads[1..])
  }

  ghost function Total(cpus: seq<Cpu>): int {
    if cpus == [] then 0 else cpus[0].capacity + Total(cpus[1..])
  }

  lemma {:induction false} HandsSet(threads: seq<Thread>, t: nat, th: Thread, cpu: nat)
    requires t < |threads|
    ensures Hands(threads[t := th], cpu) == Hands(threads, cpu) - InHand(threads[t], cpu) + InHand(th, cpu)
    ensures AllLoot(threads[t := th]) == AllLoot(threads) - Loot(threads[t]) + Loot(th)
    decreases threads
  {
    if t > 0 {
      HandsSet(threads[1..], t - 1, th, cpu);
      assert threads[t := th][1..] == threads[1..][t - 1 := th];
    } else {
      assert threads[t := th][1..] == threads[1..];
    }
  }

  lemma {:induction false} TotalSet(cpus: seq<Cpu>, k: nat, c: Cpu)
    requires k < |cpus|
    ensures Total(cpus[k := c]) == Total(cpus) - cpus[k].capacity + c.capacity
    decreases cpus
  {
    if k > 0 {
      TotalSet(cpus[1..], k - 1, c);
      assert cpus[k := c][1..] == cpus[1..][k - 1 := c];
    } else {
      assert cpus[k := c][1..] == cpus[1..];
    }
  }

  // ----- what every step keeps -----

  /** The capacity of a CPU is what is available, what its classes have, and what threads have in hand. */
  ghost predicate Accounted(sizes: seq<nat>, s: State, cpu: nat) {
    cpu < |s.cpus| ==>
      (|s.cpus[cpu].caps| == |sizes| &&
       s.cpus[cpu].capacity == s.cpus[cpu].available + Bytes(sizes, s.cpus[cpu].caps) + Hands(s.threads, cpu))
  }

  /** Threads work on CPUs there are, and a thief does not take from the CPU it takes for. */
  ghost predicate Sensible(s: State, th: Thread) {
    match th
    case Idle => true
    case Growing(c, k, b) => c < |s.cpus|
    case Returning(c, b) => c < |s.cpus|
    case Resizing(c, b) => c < |s.cpus|
    case Stealing(d, a) => d < |s.cpus|
    case Taking(d, a, src, stolen) => d < |s.cpus| && src < |s.cpus|
    case Giving(d, a) => d < |s.cpus|
  }

  /** All capacity is somewhere: `total` is what the CPUs and thieves have. */
  ghost predicate Conserved(sizes: seq<nat>, s: State, total: int) {
    (forall c: nat :: Accounted(sizes, s, c)) && (forall t :: 0 <= t < |s.threads| ==> Sensible(s, s.threads[t])) &&
    Total(s.cpus) + AllLoot(s.threads) == total
  }

  /** A thread has moved capacity of one CPU between what is available, a class, and its hands. */
  lemma Moved(sizes: seq<nat>, s: State, total: int, t: nat, th: Thread, cpu: nat, c: Cpu)
    requires Conserved(sizes, s, total) && t < |s.threads| && cpu < |s.cpus| && Sensible(s, th)
    requires |c.caps| == |sizes| && Accounted(sizes, s, cpu)
    requires c.capacity - c.available - Bytes(sizes, c.caps) - InHand(th, cpu) ==
             s.cpus[cpu].capacity - s.cpus[cpu].available - Bytes(sizes, s.cpus[cpu].caps) - InHand(s.threads[t], cpu)
    requires c.capacity + Loot(th) == s.cpus[cpu].capacity + Loot(s.threads[t])
    requires forall k: nat :: k != cpu ==> InHand(th, k) == InHand(s.threads[t], k)
    ensures Conserved(sizes, Set(s, t, th, cpu, c), total)
  {
    var s' := Set(s, t, th, cpu, c);
    forall k: nat ensures Accounted(sizes, s', k) {
      assert Accounted(sizes, s, k);
      HandsSet(s.threads, t, th, k);
    }
    HandsSet(s.threads, t, th, 0);
    TotalSet(s.cpus, cpu, c);
    forall i | 0 <= i < |s'.threads| ensures Sensible(s', s'.threads[i]) {
      assert i != t ==> Sensible(s, s.threads[i]);
    }
  }

  /** Every step keeps track of all capacity. */
  lemma NextKeeps(sizes: seq<nat>, s: State, step: Step, total: int)
    requires Conserved(sizes, s, total)
    ensures Conserved(sizes, Next(sizes, s, step), total) && |Next(sizes, s, step).cpus| == |s.cpus| && |Next(sizes, s, step).threads| == |s.threads|
  {
    if step.t < |s.threads| {
      assert Sensible(s, s.threads[step.t]);
      forall c: nat ensures Accounted(sizes, s, c) {}
      if step.StealStart? { StartKeeps(sizes, s, step, total); }
      else if step.GrowTake? || step.GrowSlab? || step.GiveBack? { GrowKeeps(sizes, s, step, total); }
      else if step.ResizeTake? || step.ResizeShrink? || step.ResizeGrow? || step.ResizeEnd? { ResizeKeeps(sizes, s, step, total); }
      else if step.DrainTake? { DrainKeeps(sizes, s, step, total); }
      else { StealKeeps(sizes, s, step, total); }
    }
  }

  lemma StartKeeps(sizes: seq<nat>, s: State, step: Step, total: int)
    requires Conserved(sizes, s, total) && step.t < |s.threads| && step.StealStart?
    ensures Conserved(sizes, Next(sizes, s, step), total)
  {
    if s.threads[step.t].Idle? && step.dest < |s.cpus| {
      var c := s.cpus[step.dest];
      assert Accounted(sizes, s, step.dest);
      Moved(sizes, s, total, step.t, Stealing(step.dest, 0), step.dest, c);
      assert s.cpus[step.dest := c] == s.cpus;
    }
  }

  lemma GrowKeeps(sizes: seq<nat>, s: State, step: Step, total: int)
    requires Conserved(sizes, s, total) && step.t < |s.threads| && (step.GrowTake? || step.GrowSlab? || step.GiveBack?)
    ensures Conserved(sizes, Next(sizes, s, step), total)
  {
    var th, s' := s.threads[step.t], Next(sizes, s, step);
    assert Sensible(s, th);
    if s' != s {
      var cpu := if step.GrowTake? then step.cpu else th.cpu;
      assert Accounted(sizes, s, cpu);
      if step.GrowSlab? {
        BytesSet(sizes, s.cpus[cpu].caps, th.cls, s.cpus[cpu].caps[th.cls] + step.increase);
        Expand(sizes[th.cls], s.cpus[cpu].caps[th.cls], step.increase);
      }
      Moved(sizes, s, total, step.t, s'.threads[step.t], cpu, s'.cpus[cpu]);
    }
  }

  lemma Expand(a: nat, b: nat, c: nat)
    ensures a * (b + c) == a * b + c * a
  {
  }

  lemma ResizeKeeps(sizes: seq<nat>, s: State, step: Step, total: int)
    requires Conserved(sizes, s, total) && step.t < |s.threads|
    requires step.ResizeTake? || step.ResizeShrink? || step.ResizeGrow? || step.ResizeEnd?
    ensures Conserved(sizes, Next(sizes, s, step), total)
  {
    var th, s' := s.threads[step.t], Next(sizes, s, step);
    assert Sensible(s, th);
    if s' != s {
      var cpu := if step.ResizeTake? then step.cpu else th.cpu;
      assert Accounted(sizes, s, cpu);
      if step.ResizeShrink? {
        BytesSet(sizes, s.cpus[cpu].caps, step.cls, s.cpus[cpu].caps[step.cls] - 1);
        Expand(sizes[step.cls], s.cpus[cpu].caps[step.cls] - 1, 1);
      } else if step.ResizeGrow? {
        BytesSet(sizes, s.cpus[cpu].caps, step.cls, s.cpus[cpu].caps[step.cls] + step.got);
        Expand(sizes[step.cls], s.cpus[cpu].caps[step.cls], step.got);
      }
      Moved(sizes, s, total, step.t, s'.threads[step.t], cpu, s'.cpus[cpu]);
    }
  }

  lemma DrainKeeps(sizes: seq<nat>, s: State, step: Step, total: int)
    requires Conserved(sizes, s, total) && step.t < |s.threads| && step.DrainTake?
    ensures Conserved(sizes, Next(sizes, s, step), total)
  {
    var s' := Next(sizes, s, step);
    if s' != s {
      assert Accounted(sizes, s, step.cpu);
      BytesSet(sizes, s.cpus[step.cpu].caps, step.cls, 0);
      Expand(sizes[step.cls], 0, s.cpus[step.cpu].caps[step.cls]);
      Moved(sizes, s, total, step.t, s'.threads[step.t], step.cpu, s'.cpus[step.cpu]);
    }
  }

  lemma StealKeeps(sizes: seq<nat>, s: State, step: Step, total: int)
    requires Conserved(sizes, s, total) && step.t < |s.threads|
    requires step.StealAvailable? || step.StealShrink? || step.StealPay? || step.StealGive? || step.StealEnd?
    ensures Conserved(sizes, Next(sizes, s, step), total)
  {
    var th, s' := s.threads[step.t], Next(sizes, s, step);
    assert Sensible(s, th);
    if s' != s {
      var cpu := if step.StealAvailable? || step.StealShrink? then step.src else if step.StealPay? then th.src else th.dest;
      assert Accounted(sizes, s, cpu);
      if step.StealShrink? {
        BytesSet(sizes, s.cpus[cpu].caps, step.cls, s.cpus[cpu].caps[step.cls] - 1);
        Expand(sizes[step.cls], s.cpus[cpu].caps[step.cls] - 1, 1);
      }
      Moved(sizes, s, total, step.t, s'.threads[step.t], cpu, s'.cpus[cpu]);
    }
  }

  // ----- nothing goes below zero -----

  /** At most one thread steals: shuffling is done by one background thread. */
  ghost predicate OneThief(threads: seq<Thread>) {
    forall i, j :: 0 <= i < j < |threads| ==> !(threads[i].Thief() && threads[j].Thief())
  }

  ghost predicate NonNegative(s: State) {
    forall c :: 0 <= c < |s.cpus| ==> s.cpus[c].available >= 0 && s.cpus[c].capacity >= 0
  }

  /** Who else is not a thief has nothing to owe. */
  lemma {:induction false} HandsAtLeast(threads: seq<Thread>, t: nat, cpu: nat)
    requires t < |threads| && forall j :: 0 <= j < |threads| && j != t ==> !threads[j].Giving?
    ensures Hands(threads, cpu) >= InHand(threads[t], cpu)
    decreases threads
  {
    var rest := threads[1..];
    if t > 0 {
      HandsAtLeast(rest, t - 1, cpu);
    } else {
      HandsPositive(rest, cpu);
    }
  }

  lemma {:induction false} HandsPositive(threads: seq<Thread>, cpu: nat)
    requires forall j :: 0 <= j < |threads| ==> !threads[j].Giving?
    ensures Hands(threads, cpu) >= 0
    decreases threads
  {
    if threads != [] { HandsPositive(threads[1..], cpu); }
  }

  /** With one thief no counter is ever taken below zero. */
  lemma NextNonNegative(sizes: seq<nat>, s: State, step: Step, total: int)
    requires Conserved(sizes, s, total) && NonNegative(s) && OneThief(s.threads)
    ensures NonNegative(Next(sizes, s, step))
  {
    if step.StealPay? && step.t < |s.threads| && s.threads[step.t].Taking? && s.threads[step.t].src < |s.cpus| {
      var th := s.threads[step.t];
      assert Accounted(sizes, s, th.src);
      forall j | 0 <= j < |s.threads| && j != step.t ensures !s.threads[j].Giving? {
        assert j < step.t ==> !(s.threads[j].Thief() && s.threads[step.t].Thief());
        assert step.t < j ==> !(s.threads[step.t].Thief() && s.threads[j].Thief());
      }
      HandsAtLeast(s.threads, step.t, th.src);
    }
  }

  // ----- whole runs -----

  function Run(sizes: seq<nat>, s: State, steps: seq<Step>): State
    decreases steps
  {
    if steps == [] then s else Run(sizes, Next(sizes, s, steps[0]), steps[1..])
  }

  /** Nobody starts to steal while another thread does. */
  ghost predicate Alone(sizes: seq<nat>, s: State, steps: seq<Step>)
    decreases steps
  {
    steps == [] || (OneThief(s.threads) && Alone(sizes, Next(sizes, s, steps[0]), steps[1..]))
  }

  /** In every interleaving all capacity is accounted for, CPU by CPU and in total. */
  lemma {:induction false} RunKeeps(sizes: seq<nat>, s: State, steps: seq<Step>, total: int)
    requires Conserved(sizes, s, total)
    ensures Conserved(sizes, Run(sizes, s, steps), total)
    decreases steps
  {
    if steps != [] {
      NextKeeps(sizes, s, steps[0], total);
      RunKeeps(sizes, Next(sizes, s, steps[0]), steps[1..], total);
    }
  }

  /** With one thief at a time nothing goes below zero on the way. */
  lemma {:induction false} RunNonNegative(sizes: seq<nat>, s: State, steps: seq<Step>, total: int)
    requires Conserved(sizes, s, total) && NonNegative(s) && Alone(sizes, s, steps)
    ensures NonNegative(Run(sizes, s, steps))
    decreases steps
  {
    if steps != [] {
      NextKeeps(sizes, s, steps[0], total);
      NextNonNegative(sizes, s, steps[0], total);
      RunNonNegative(sizes, Next(sizes, s, steps[0]), steps[1..], total);
    }
  }

  /** Only thread `b` is a thief. */
  ghost predicate OnlyThief(threads: seq<Thread>, b: nat) { forall t :: 0 <= t < |threads| && t != b ==> !threads[t].Thief() }

  lemma NextThief(sizes: seq<nat>, s: State, step: Step, b: nat)
    requires OnlyThief(s.threads, b) && (step.StealStart? ==> step.t == b)
    ensures OnlyThief(Next(sizes, s, step).threads, b) && |Next(sizes, s, step).threads| == |s.threads|
  {
  }

  /** If only one thread ever starts to steal, as shuffling is done by one background thread, nobody starts while another
      does: nothing goes below zero. */
  lemma {:induction false} Background(sizes: seq<nat>, s: State, steps: seq<Step>, total: int, b: nat)
    requires Conserved(sizes, s, total) && NonNegative(s) && OnlyThief(s.threads, b)
    requires forall i :: 0 <= i < |steps| && steps[i].StealStart? ==> steps[i].t == b
    ensures Alone(sizes, s, steps) && NonNegative(Run(sizes, s, steps))
    decreases steps
  {
    hide Next, Conserved;
    if steps != [] {
      NextThief(sizes, s, steps[0], b);
      NextKeeps(sizes, s, steps[0], total);
      NextNonNegative(sizes, s, steps[0], total);
      Background(sizes, Next(sizes, s, steps[0]), steps[1..], total, b);
    }
  }

  /** When all threads are done, a CPU's capacity is what is available and what its classes have,
      and no capacity was lost or made. */
  lemma AtRest(sizes: seq<nat>, s: State, steps: seq<Step>, total: int)
    requires Conserved(sizes, s, total)
    requires forall t :: 0 <= t < |Run(sizes, s, steps).threads| ==> Run(sizes, s, steps).threads[t].Idle?
    ensures var end := Run(sizes, s, steps);
      Total(end.cpus) == total &&
      forall c :: 0 <= c < |end.cpus| ==>
        |end.cpus[c].caps| == |sizes| && end.cpus[c].capacity == end.cpus[c].available + Bytes(sizes, end.cpus[c].caps)
  {
    RunKeeps(sizes, s, steps, total);
    var end := Run(sizes, s, steps);
    hide Run, Bytes;
    AllIdle(end.threads, 0);
    forall c: nat | c < |end.cpus|
      ensures |end.cpus[c].caps| == |sizes| && end.cpus[c].capacity == end.cpus[c].available + Bytes(sizes, end.cpus[c].caps)
    {
      assert Accounted(sizes, end, c);
      AllIdle(end.threads, c);
    }
  }

  lemma {:induction false} AllIdle(threads: seq<Thread>, cpu: nat)
    requires forall t :: 0 <= t < |threads| ==> threads[t].Idle?
    ensures Hands(threads, cpu) == 0 && AllLoot(threads) == 0
    decreases threads
  {
    if threads != [] { AllIdle(threads[1..], cpu); }
  }

  const TWO := State([Cpu(10, 10, []), Cpu(0, 0, [])], [Idle, Idle])
  const GAVE := State([Cpu(0, 0, []), Cpu(0, 10, [])], [Idle, Giving(1, 10)])
  const BOTH := State([Cpu(0, 0, []), Cpu(-10, 0, [])], [Stealing(0, 10), Giving(1, 10)])
  const ONE_STEALS := [StealStart(1, 1), StealAvailable(1, 0, 10), StealPay(1), StealGive(1)]
  const OTHER_STEALS := [StealStart(0, 0), StealAvailable(0, 1, 10), StealPay(0)]

  lemma TwoConserved()
    ensures Conserved([], TWO, 10) && NonNegative(TWO)
  {
    assert TWO.cpus[1..] == [Cpu(0, 0, [])] && TWO.threads[1..] == [Idle];
    forall c: nat ensures Accounted([], TWO, c) { AllIdle(TWO.threads, c); }
    AllIdle(TWO.threads, 0);
    assert Total(TWO.cpus) == 10 + Total(TWO.cpus[1..]) && Total(TWO.cpus[1..]) == 0 + Total(TWO.cpus[1..][1..]);
  }

  lemma OneSteals()
    ensures Run([], TWO, ONE_STEALS) == GAVE
  {
    var x1 := Next([], TWO, ONE_STEALS[0]);
    assert x1 == State([Cpu(10, 10, []), Cpu(0, 0, [])], [Idle, Stealing(1, 0)]);
    var x2 := Next([], x1, ONE_STEALS[1]);
    assert x2 == State([Cpu(10, 0, []), Cpu(0, 0, [])], [Idle, Taking(1, 0, 0, 10)]);
    var x3 := Next([], x2, ONE_STEALS[2]);
    assert x3 == State([Cpu(0, 0, []), Cpu(0, 0, [])], [Idle, Stealing(1, 10)]);
    assert Next([], x3, ONE_STEALS[3]) == GAVE;
    FourSteps([], TWO, ONE_STEALS);
  }

  lemma OtherSteals()
    ensures Run([], GAVE, OTHER_STEALS) == BOTH && !Alone([], GAVE, OTHER_STEALS)
  {
    var y1 := Next([], GAVE, OTHER_STEALS[0]);
    assert y1 == State([Cpu(0, 0, []), Cpu(0, 10, [])], [Stealing(0, 0), Giving(1, 10)]);
    assert !OneThief(y1.threads) by { assert y1.threads[0].Thief() && y1.threads[1].Thief(); }
    var y2 := Next([], y1, OTHER_STEALS[1]);
    assert y2 == State([Cpu(0, 0, []), Cpu(0, 0, [])], [Taking(0, 0, 1, 10), Giving(1, 10)]);
    assert Next([], y2, OTHER_STEALS[2]) == BOTH;
    ThreeSteps([], GAVE, OTHER_STEALS);
    assert OTHER_STEALS[1..] != [];
    assert !Alone([], y1, OTHER_STEALS[1..]);
  }

  /** Two thieves at once can take a capacity below zero: one gives what it stole to a CPU, and
      before it has told the other takes it away again. */
  lemma TwoThieves()
    ensures Conserved([], TWO, 10) && NonNegative(TWO)
    ensures var steps := ONE_STEALS + OTHER_STEALS; !Alone([], TWO, steps) && !NonNegative(Run([], TWO, steps))
  {
    TwoConserved();
    OneSteals();
    OtherSteals();
    RunAppend([], TWO, ONE_STEALS, OTHER_STEALS);
    NotAlone([], TWO, ONE_STEALS, OTHER_STEALS);
    assert BOTH.cpus[1].capacity < 0;
  }

  lemma FourSteps(sizes: seq<nat>, s: State, a: seq<Step>)
    requires |a| == 4
    ensures Run(sizes, s, a) == Next(sizes, Next(sizes, Next(sizes, Next(sizes, s, a[0]), a[1]), a[2]), a[3])
  {
    hide Next;
    ThreeSteps(sizes, Next(sizes, s, a[0]), a[1..]);
  }

  lemma ThreeSteps(sizes: seq<nat>, s: State, a: seq<Step>)
    requires |a| == 3
    ensures Run(sizes, s, a) == Next(sizes, Next(sizes, Next(sizes, s, a[0]), a[1]), a[2])
  {
    hide Next;
    var x := Next(sizes, s, a[0]);
    var y := Next(sizes, x, a[1]);
    assert Run(sizes, y, a[1..][1..]) == Run(sizes, Next(sizes, y, a[2]), a[1..][1..][1..]);
  }

  lemma {:induction false} RunAppend(sizes: seq<nat>, s: State, a: seq<Step>, b: seq<Step>)
    ensures Run(sizes, s, a + b) == Run(sizes, Run(sizes, s, a), b)
    decreases a
  {
    if a == [] {
      assert a + b == b;
    } else {
      assert (a + b)[0] == a[0] && (a + b)[1..] == a[1..] + b;
      RunAppend(sizes, Next(sizes, s, a[0]), a[1..], b);
    }
  }

  lemma {:induction false} NotAlone(sizes: seq<nat>, s: State, a: seq<Step>, b: seq<Step>)
    requires !Alone(sizes, Run(sizes, s, a), b)
    ensures !Alone(sizes, s, a + b)
    decreases a
  {
    if a == [] {
      assert a + b == b;
    } else {
      assert (a + b)[0] == a[0] && (a + b)[1..] == a[1..] + b;
      NotAlone(sizes, Next(sizes, s, a[0]), a[1..], b);
    }
  }
}

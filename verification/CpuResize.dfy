/** How capacity moves between the size classes of one CPU while nothing else happens there
    (tcmalloc/cpu_cache.h). */
module CpuResize {
  import opened Arithmetic
  import opened CpuMaxCapacity
  import opened CpuCapacity

  /** With this much available all classes can grow as they see fit. */
  const MAX_CPU_CACHE_SIZE: nat := 1_572_864

  const MAX_SIZE: nat := 262_144

  /** The classes in `stats` that have all the capacity they may have, among the first `i`. */
  function Full(stats: seq<Stat>, caps: seq<nat>, max: seq<nat>, i: nat): nat
    requires i <= |stats|
  {
    if i == 0 then 0 else Full(stats, caps, max, i - 1) + if IsFull(stats[i - 1].cls, caps, max) then 1 else 0
  }

  predicate IsFull(c: nat, caps: seq<nat>, max: seq<nat>) { c < |caps| && c < |max| && max[c] <= caps[c] }

  lemma {:induction false} FullBound(stats: seq<Stat>, caps: seq<nat>, max: seq<nat>, i: nat, k: nat)
    requires i <= k <= |stats|
    ensures Full(stats, caps, max, i) <= Full(stats, caps, max, k) <= Full(stats, caps, max, i) + (k - i)
    decreases k
  {
    if i < k { FullBound(stats, caps, max, i, k - 1); }
  }

  /** All classes but class 0, each once, most misses first. */
  ghost predicate StatsFor(n: nat, stats: seq<Stat>) {
    |stats| + 1 == n && InOrder(stats) && Distinct(stats) && forall i :: 0 <= i < |stats| ==> 1 <= stats[i].cls < n
  }

  // ----- when the statistics do not suffice -----

  /** The first `i` classes had misses, and all but four of all classes are full among them: so many are
      looked at then that the statistics do not suffice. */
  predicate PastEnd(stats: seq<Stat>, caps: seq<nat>, max: seq<nat>, i: nat) {
    i <= |stats| && (forall j :: 0 <= j < i ==> stats[j].misses > 0) && Full(stats, caps, max, i) + 4 >= |stats|
  }

  /** There is nothing more to look at, or a class that wants to grow. */
  predicate Wants(stats: seq<Stat>, caps: seq<nat>, max: seq<nat>, i: nat) {
    i == |stats| || (i < |stats| && stats[i].misses > 0 && !IsFull(stats[i].cls, caps, max))
  }

  /** The statistics do not suffice for a class that wants to grow. */
  predicate Certain(stats: seq<Stat>, caps: seq<nat>, max: seq<nat>) {
    exists i :: 0 <= i <= |stats| && PastEnd(stats, caps, max, i) && Wants(stats, caps, max, i)
  }

  /** The first class that may have more. */
  function FirstOpen(stats: seq<Stat>, caps: seq<nat>, max: seq<nat>, i: nat): (f: nat)
    requires i <= |stats|
    ensures i <= f <= |stats| && (forall j :: i <= j < f ==> IsFull(stats[j].cls, caps, max))
    ensures f < |stats| ==> !IsFull(stats[f].cls, caps, max)
    decreases |stats| - i
  {
    if i == |stats| || !IsFull(stats[i].cls, caps, max) then i else FirstOpen(stats, caps, max, i + 1)
  }

  /** Nor for a full class that wants to have back what was taken from it: it can have been taken for a
      class that is five places or more before it. */
  predicate Robbed(stats: seq<Stat>, caps: seq<nat>, max: seq<nat>, m: nat) {
    m < |stats| && PastEnd(stats, caps, max, m) && stats[m].misses > 0 && stats[m].cls < |caps| && caps[stats[m].cls] > 0 &&
    IsFull(stats[m].cls, caps, max) && FirstOpen(stats, caps, max, 0) + 5 <= m
  }

  /** One or the other. */
  predicate MayPass(stats: seq<Stat>, caps: seq<nat>, max: seq<nat>) {
    Certain(stats, caps, max) || exists m :: 0 <= m < |stats| && Robbed(stats, caps, max, m)
  }

  lemma FullNone(stats: seq<Stat>, caps: seq<nat>, max: seq<nat>)
    ensures Full(stats, caps, max, 0) == 0
  {
  }

  lemma FullNext(stats: seq<Stat>, caps: seq<nat>, max: seq<nat>, i: nat)
    requires i < |stats|
    ensures Full(stats, caps, max, i + 1) == Full(stats, caps, max, i) + if IsFull(stats[i].cls, caps, max) then 1 else 0
  {
  }

  /** The limit stays ahead of every class before the one where it gets past the end. */
  lemma FullSoFar(stats: seq<Stat>, caps: seq<nat>, max: seq<nat>, i: nat, c: nat)
    requires i <= c && PastEnd(stats, caps, max, c)
    ensures i < Least(|stats| + 1, 5 + Full(stats, caps, max, i))
  {
    FullBound(stats, caps, max, i, c);
    hide Full;
  }

  /** So if nothing stops the loop before, it comes to that class. */
  lemma NotCertain(stats: seq<Stat>, caps: seq<nat>, max: seq<nat>, i: nat)
    requires i <= |stats| && forall j :: 0 <= j < i ==> !(PastEnd(stats, caps, max, j) && Wants(stats, caps, max, j))
    requires i >= Least(|stats| + 1, 5 + Full(stats, caps, max, i)) || (i < |stats| && stats[i].misses == 0)
    ensures !Certain(stats, caps, max)
  {
    forall c | 0 <= c <= |stats| && PastEnd(stats, caps, max, c) ensures !Wants(stats, caps, max, c) {
      if i <= c { FullSoFar(stats, caps, max, i, c); }
    }
  }

  /** What is missing from `b` to `a`. */
  function Short(a: nat, b: nat): nat { if a >= b then a - b else 0 }

  /** Nobody gives anything, or only class `v` does. */
  ghost predicate Mute(w: nat -> bool) { forall k: nat :: !w(k) }
  ghost predicate Solo(w: nat -> bool, v: nat) { forall k: nat :: w(k) <==> k == v }
  ghost predicate NobodyGives(willing: (nat, nat) -> bool) { forall i: nat, k: nat :: !willing(i, k) }
  ghost predicate OnlyGives(willing: (nat, nat) -> bool, look: nat, v: nat) { forall i: nat, k: nat :: willing(i, k) <==> i == look && k == v }

  /** The class at `m` is made to give one object's worth to the first class that may have more, and when
      its turn comes there is less than that left: the statistics do not suffice. */
  ghost predicate Plot(stats: seq<Stat>, caps: seq<nat>, max: seq<nat>, sizes: seq<nat>, available: nat, willing: (nat, nat) -> bool, m: nat) {
    Robbed(stats, caps, max, m) && |sizes| == |caps| && var f := FirstOpen(stats, caps, max, 0);
    stats[f].cls < |sizes| && available == Short(sizes[stats[f].cls], sizes[stats[m].cls]) && OnlyGives(willing, f, stats[m].cls)
  }

  ghost predicate Plotted(stats: seq<Stat>, caps: seq<nat>, max: seq<nat>, sizes: seq<nat>, available: nat, willing: (nat, nat) -> bool) {
    exists m :: Plot(stats, caps, max, sizes, available, willing, m)
  }

  /** Sizes are limited, and objects of classes in use are moved (tcmalloc/sizemap.cc). */
  ghost predicate SizeMap(sizes: seq<nat>, batch: seq<nat>) {
    |sizes| == |batch| && forall k :: 0 <= k < |sizes| ==> sizes[k] <= MAX_SIZE && (sizes[k] > 0 ==> batch[k] > 0)
  }

  /** The bytes for `room` more objects. */
  function Cost(room: nat, size: nat): nat { room * size }

  /** The bytes for all that the classes from `i` up to `m` may have more. */
  function Room(stats: seq<Stat>, caps: seq<nat>, max: seq<nat>, sizes: seq<nat>, i: nat, m: nat): nat
    requires m <= |stats| && |caps| == |max| == |sizes| && forall j :: 0 <= j < |stats| ==> stats[j].cls < |caps|
    decreases m - i
  {
    if i >= m then 0 else Cost(Short(max[stats[i].cls], caps[stats[i].cls]), sizes[stats[i].cls]) + Room(stats, caps, max, sizes, i + 1, m)
  }

  /** Just so much is available that all classes before `m` can have all they may and nobody is asked for anything; and then the statistics do
      not suffice. */
  ghost predicate Plenty(stats: seq<Stat>, caps: seq<nat>, max: seq<nat>, sizes: seq<nat>, available: nat, m: nat) {
    m <= |stats| && |caps| == |max| == |sizes| && (forall j :: 0 <= j < |stats| ==> stats[j].cls < |caps|) &&
    PastEnd(stats, caps, max, m) && Wants(stats, caps, max, m) && available == Room(stats, caps, max, sizes, 0, m)
  }

  /** As many objects as are wanted, `bytes` are good for, and the class has `room` for. */
  function Affordable(desired: nat, bytes: nat, size: nat, room: nat): nat {
    if size == 0 then 0 else Least(Least(desired, bytes / size), room)
  }

  class CpuCache {
    /** Object size, objects moved at a time, and most objects cached, for each class. */
    const sizes: seq<nat>
    const batch: seq<nat>
    const max: seq<nat>
    var capacity: nat
    var available: nat
    var caps: seq<nat>
    var nextSteal: nat

    /** All is accounted for, but for `hand` bytes the operation under way has in hand. */
    ghost predicate Sound(hand: int)
      reads this
    {
      |sizes| == |batch| == |max| == |caps| && |sizes| > 5 && nextSteal > 0 && SizeMap(sizes, batch) &&
      (forall k :: 0 <= k < |caps| ==> caps[k] <= max[k]) && capacity == available + Bytes(sizes, caps) + hand
    }

    ghost predicate Valid()
      reads this
    {
      Sound(0)
    }

    /** A cache in which the classes have `caps` and `available` bytes are left. */
    constructor (sizes: seq<nat>, batch: seq<nat>, max: seq<nat>, caps: seq<nat>, available: nat)
      requires |sizes| == |batch| == |max| == |caps| && |sizes| > 5 && SizeMap(sizes, batch)
      requires forall k :: 0 <= k < |caps| ==> caps[k] <= max[k]
      ensures Valid() && this.sizes == sizes && this.batch == batch && this.max == max && this.caps == caps && this.available == available
    {
      this.sizes, this.batch, this.max, this.caps, this.available := sizes, batch, max, caps, available;
      nextSteal, capacity := 1, available + Bytes(sizes, caps);
    }

    /** Grow a class by up to `desired` objects, as far as capacity is available and the class may
        have it. */
    method Grow(cls: nat, desired: nat) returns (increase: nat)
      requires Valid() && 1 <= cls < |sizes| && sizes[cls] > 0
      modifies this`available, this`caps
      ensures Valid() && increase <= desired && caps == old(caps)[cls := old(caps)[cls] + increase]
      ensures available == old(available) - increase * sizes[cls]
      ensures increase == Affordable(desired, old(available), sizes[cls], Short(max[cls], old(caps)[cls]))
    {
      hide Bytes;
      var size := sizes[cls];
      Shares(available, desired, size);
      var acquired: nat := if available < size then 0 else Least(available, desired * size);
      available := available - acquired;
      increase := Least(acquired / size, max[cls] - caps[cls]);
      FitsIn(increase, acquired, size);
      BytesGrow(sizes, caps, cls, increase);
      caps := caps[cls := caps[cls] + increase];
      available := available + (acquired - increase * size);
    }

    /** Take one object's worth of capacity from a class, if it has any and is `willing`. */
    method ShrinkOtherCache(cls: nat, willing: bool, ghost hand: int) returns (stolen: nat)
      requires Sound(hand) && 1 <= cls < |sizes|
      modifies this`caps
      ensures Sound(hand + stolen)
      ensures if willing && old(caps)[cls] > 0 then stolen == sizes[cls] && caps == old(caps)[cls := old(caps)[cls] - 1]
              else stolen == 0 && caps == old(caps)
    {
      if caps[cls] == 0 || !willing { return 0; }
      BytesShrink(sizes, caps, cls);
      hide Bytes;
      caps := caps[cls := caps[cls] - 1];
      stolen := sizes[cls];
    }

    /** Go round the classes once and take from those that are not in `dest` with misses, until
        `bytes` have been found: one object's worth each, or less than all if that is enough. */
    method StealCapacityForSizeClassWithinCpu(dest: seq<Stat>, bytes: nat, willing: nat -> bool, ghost hand: int) returns (acquired: nat)
      requires Sound(hand)
      modifies this`caps, this`nextSteal
      ensures Sound(hand + acquired) && |caps| == |old(caps)|
      ensures forall k :: 0 <= k < |caps| ==> caps[k] == old(caps)[k] || (k > 0 && caps[k] == Taken(dest, willing, old(caps), k))
      ensures acquired < bytes ==> forall k :: 1 <= k < |caps| ==> caps[k] == Taken(dest, willing, old(caps), k)
      ensures Mute(willing) ==> caps == old(caps) && acquired == 0
    {
      hide Bytes, Taken;
      acquired := 0;
      var source: nat, i := nextSteal, 1;
      ghost var start := if nextSteal >= |sizes| then 1 else nextSteal;
      while i < |sizes|
        invariant 1 <= i <= |sizes| && source > 0 && Sound(hand + acquired)
        invariant i == 1 ==> start == if source >= |sizes| then 1 else source
        invariant i > 1 ==> source == if start + i - 1 <= |sizes| then start + i - 1 else start + i - |sizes|
        invariant forall k :: 0 <= k < |caps| ==>
                    caps[k] == if Visited(|sizes|, start, i - 1, k) then Taken(dest, willing, old(caps), k) else old(caps)[k]
        invariant Mute(willing) ==> acquired == 0
      {
        if source >= |sizes| { source := 1; }
        VisitNext(|sizes|, start, i, source);
        Skips(dest, willing, caps, old(caps), source);
        if !(exists j :: 0 <= j < |dest| && dest[j].cls == source && dest[j].misses != 0) {
          var stolen := ShrinkOtherCache(source, willing(source), hand + acquired);
          acquired := acquired + stolen;
          if acquired >= bytes { break; }
        }
        i, source := i + 1, source + 1;
      }
      nextSteal := source;
      if Mute(willing) { MuteTakes(dest, willing, old(caps)); }
      AllVisited(|sizes|, start, |sizes| - 1);
    }

    /** Grow the class at `i` in `stats`, by a batch if it may have it, with what the other classes can
        spare. The `limit` classes to grow are those not to take from; `inRange` says that there are
        statistics for so many. If only class `v` gives anything, `v` is not to grow and just so much is
        available, what is left is not enough for an object of `v`. */
    method GrowClass(stats: seq<Stat>, i: nat, limit: nat, willing: nat -> bool, hand: nat, ghost v: nat) returns (rest: nat, inRange: bool)
      requires Sound(hand) && StatsFor(|sizes|, stats) && i < |stats| && i < limit && sizes[stats[i].cls] > 0
      requires caps[stats[i].cls] < max[stats[i].cls] && stats[i].misses > 0
      modifies this`caps, this`nextSteal
      ensures Sound(rest) && Changed(stats, i, limit, old(caps), caps)
      ensures inRange ==> caps[stats[i].cls] == max[stats[i].cls] || rest < sizes[stats[i].cls]
      ensures inRange && hand >= sizes[stats[i].cls] ==> caps[stats[i].cls] > old(caps)[stats[i].cls]
      ensures !inRange ==> limit > |stats|
      ensures limit > |stats| && hand < sizes[stats[i].cls] ==> !inRange
      ensures Mute(willing) ==> rest <= hand && Same(stats[i].cls, old(caps), caps)
      ensures Mute(willing) && hand == 0 ==> caps == old(caps)
      ensures Gave(stats, i, limit, willing, sizes, old(caps), hand, v) ==>
                inRange && rest < sizes[v] && Same(stats[i].cls, old(caps)[v := old(caps)[v] - 1], caps)
      ensures var cost := Cost(max[stats[i].cls] - old(caps)[stats[i].cls], sizes[stats[i].cls]);
        hand >= cost ==> inRange && rest == hand - cost && caps == old(caps)[stats[i].cls := max[stats[i].cls]]
    {
      hide Bytes, StatsFor, Taken, Gave, SizeMap, Changed, Same, Short, Mute, Need, Paid, Between, Cost;
      Entries(stats, |sizes|);
      rest, inRange := hand, true;
      var cls := stats[i].cls;
      Moves(sizes, batch, cls);
      var need := Need(max[cls] - caps[cls], batch[cls], sizes[cls]);
      NeedSome(max[cls] - caps[cls], batch[cls], sizes[cls]);
      ghost var was := caps;
      ghost var gave := Gave(stats, i, limit, willing, sizes, was, hand, v);
      GaveParts(stats, i, limit, willing, sizes, was, hand, v);
      ChangedNot(stats, i, limit, willing, was);
      if need > rest {
        if limit > |stats| { return rest, false; }
        rest := Gather(stats, i, limit, willing, hand, need - hand, v);
      }
      ghost var mid := caps;
      Spared(stats, i, limit, willing, was, mid);
      rest := GrowBy(cls, rest);
      ChangedBy(stats, i, limit, willing, was, mid, caps);
      if gave { LessLeft(sizes[cls], sizes[v], caps[cls] - mid[cls], hand, rest); }
    }

    /** Take up to `bytes` from classes that are not to grow. */
    method Gather(stats: seq<Stat>, i: nat, limit: nat, willing: nat -> bool, hand: nat, bytes: nat, ghost v: nat) returns (sum: nat)
      requires Sound(hand) && limit <= |stats| && bytes > 0
      modifies this`caps, this`nextSteal
      ensures Sound(sum) && sum >= hand && Between(stats, limit, willing, old(caps), caps)
      ensures Mute(willing) ==> sum == hand && caps == old(caps)
      ensures Gave(stats, i, limit, willing, sizes, old(caps), hand, v) ==> sum == hand + sizes[v] && caps == old(caps)[v := old(caps)[v] - 1]
    {
      hide Bytes, Taken, SizeMap, Mute, Short, Gave;
      GaveParts(stats, i, limit, willing, sizes, caps, hand, v);
      var acquired := StealCapacityForSizeClassWithinCpu(stats[..limit], bytes, willing, hand);
      sum := hand + acquired;
      if Gave(stats, i, limit, willing, sizes, old(caps), hand, v) {
        OneGiver(stats, i, limit, willing, sizes, old(caps), caps, hand, v, acquired, bytes);
      }
    }

    /** Grow a class by what `hand` bytes are good for. */
    method GrowBy(cls: nat, hand: nat) returns (rest: nat)
      requires Sound(hand) && cls < |sizes| && sizes[cls] > 0
      modifies this`caps
      ensures Sound(rest) && Same(cls, old(caps), caps)
      ensures old(caps)[cls] <= caps[cls] && (caps[cls] == max[cls] || rest < sizes[cls])
      ensures hand >= sizes[cls] && old(caps)[cls] < max[cls] ==> caps[cls] > old(caps)[cls]
      ensures rest <= hand && Paid(caps[cls] - old(caps)[cls], sizes[cls], hand, rest)
      ensures hand == 0 ==> caps == old(caps)
      ensures hand >= Cost(max[cls] - old(caps)[cls], sizes[cls]) ==>
                caps == old(caps)[cls := max[cls]] && rest == hand - Cost(max[cls] - old(caps)[cls], sizes[cls])
    {
      hide Bytes, SizeMap, Cost;
      var room := max[cls] - caps[cls];
      Growth(room, hand, sizes[cls]);
      var got := Least(room, hand / sizes[cls]);
      BytesGrow(sizes, caps, cls, got);
      caps := caps[cls := caps[cls] + got];
      rest := hand - Cost(got, sizes[cls]);
    }

    /** Look at the class at `i` in `stats`: it grows, or one more class is to be looked at. */
    method Look(stats: seq<Stat>, i: nat, limit: nat, willing: nat -> bool, hand: nat, ghost v: nat) returns (rest: nat, limit': nat, inRange: bool)
      requires Sound(hand) && StatsFor(|sizes|, stats) && i < |stats| && i < limit <= |stats| + 1 && sizes[stats[i].cls] > 0 && stats[i].misses > 0
      modifies this`caps, this`nextSteal
      ensures Sound(rest) && Looked(stats, max, sizes, i, limit, old(caps), hand, caps, rest, limit', inRange)
      ensures inRange && hand >= sizes[stats[i].cls] && old(caps)[stats[i].cls] < max[stats[i].cls] ==> caps[stats[i].cls] > old(caps)[stats[i].cls]
      ensures Mute(willing) ==> rest <= hand && Same(stats[i].cls, old(caps), caps) && (hand == 0 ==> caps == old(caps))
      ensures !IsFull(stats[i].cls, old(caps), max) && Gave(stats, i, limit, willing, sizes, old(caps), hand, v) ==>
                inRange && rest < sizes[v] && Same(stats[i].cls, old(caps)[v := old(caps)[v] - 1], caps)
      ensures !IsFull(stats[i].cls, old(caps), max) ==> Spent(max, sizes, stats[i].cls, old(caps), hand, caps, rest, inRange)
    {
      hide Bytes, InOrder, Gave, SizeMap, Cost;
      rest, limit', inRange := hand, limit, true;
      var cls := stats[i].cls;
      if max[cls] <= caps[cls] {
        if limit < |sizes| { limit' := limit + 1; }
      } else {
        rest, inRange := GrowClass(stats, i, limit, willing, hand, v);
      }
    }

    /** One look, and what is known then. */
    method Turn(stats: seq<Stat>, i: nat, limit: nat, willing: (nat, nat) -> bool, hand: nat, ghost was: seq<nat>, ghost had: nat, ghost m: nat,
                ghost e: nat, ghost bare: bool, ghost plot: bool, ghost rich: bool)
      returns (rest: nat, limit': nat, inRange: bool)
      requires Sound(hand) && StatsFor(|sizes|, stats) && i < |stats| && i < limit && sizes[stats[i].cls] > 0 && stats[i].misses > 0
      requires SoFar(stats, was, caps, max, sizes, had, i, limit, hand) && Course(stats, was, caps, max, sizes, i, limit, hand, m, e, willing, bare, plot, rich)
      requires plot ==> m < |stats| && sizes[stats[m].cls] > 0 && was[stats[m].cls] <= max[stats[m].cls]
      modifies this`caps, this`nextSteal
      ensures Sound(rest) && TopFive(stats, was, caps)
      ensures if inRange then SoFar(stats, was, caps, max, sizes, had, i + 1, limit', rest) && Course(stats, was, caps, max, sizes, i + 1, limit', rest, m, e, willing, bare, plot, rich)
              else MayPass(stats, was, max) && (bare ==> Certain(stats, was, max))
    {
      hide Bytes, SizeMap, StatsFor, FirstOpen, SoFar, Looked, Barely, Plotting, Rich, Spent, MayPass, Certain, TopFive, Same, Gave, Mute, NobodyGives, OnlyGives, IsFull, Least;
      Entries(stats, |sizes|);
      SoFarEnd(stats, was, caps, max, sizes, had, i, limit, hand);
      var w := (k: nat) => willing(i, k);
      Answers(willing, i, w, FirstOpen(stats, was, max, 0), ClassAt(stats, m));
      rest, limit', inRange := Look(stats, i, limit, w, hand, ClassAt(stats, m));
      SoFarNext(stats, was, old(caps), caps, max, sizes, had, i, limit, limit', hand, rest, inRange);
      if bare { BareNext(stats, was, max, sizes, i, limit, limit', rest, inRange); }
      if plot && inRange { PlotNext(stats, was, old(caps), caps, max, sizes, i, limit, limit', hand, rest, m, willing, w); }
      if rich && inRange { RichNext(stats, was, old(caps), caps, max, sizes, i, limit, limit', hand, rest, e); }
    }

    /** Grow the classes with the most misses. Five are looked at, and one more for each that has all
        it may have already, up to the number of classes; the statistics are of one class less. So
        they may be read beyond their end, when a class is looked at or when a class must not be taken
        from. `willing(i, k)` is what class `k` answers at look `i`. Whatever the answers are, it does
        not happen unless `MayPass`. If nothing is available and nobody gives anything, it happens exactly
        if `Certain`; and otherwise there are answers with which it happens. If there is `Plenty` it happens
        whatever the answers are. */
    method ResizeCpuSizeClasses(stats: seq<Stat>, willing: (nat, nat) -> bool) returns (inRange: bool)
      requires Valid() && StatsFor(|sizes|, stats) && forall i :: 0 <= i < |stats| && stats[i].misses > 0 ==> sizes[stats[i].cls] > 0
      modifies this`available, this`caps, this`nextSteal
      ensures Valid()
      ensures TopFive(stats, old(caps), caps)
      ensures inRange && sizes[stats[0].cls] <= old(available) < MAX_CPU_CACHE_SIZE && stats[0].misses > 0 && old(caps)[stats[0].cls] < max[stats[0].cls] ==>
                caps[stats[0].cls] > old(caps)[stats[0].cls]
      ensures !inRange ==> old(available) < MAX_CPU_CACHE_SIZE && MayPass(stats, old(caps), max)
      ensures old(available) == 0 && NobodyGives(willing) ==> (inRange <==> !Certain(stats, old(caps), max))
      ensures Plotted(stats, old(caps), max, sizes, old(available), willing) ==> !inRange
      ensures old(available) < MAX_CPU_CACHE_SIZE && (exists e :: Plenty(stats, old(caps), max, sizes, old(available), e)) ==> !inRange
    {
      hide Bytes, SizeMap, StatsFor, SoFar, Course, MayPass, Certain, TopFive, Plotted, NobodyGives, Plenty;
      Entries(stats, |sizes|);
      SmallPlot(stats, caps, max, sizes, batch, available, willing);
      KeepsFive(stats, caps);
      if available >= MAX_CPU_CACHE_SIZE { return true; }
      var hand := available;
      available := 0;
      ghost var was, had := caps, hand;
      ghost var bare, plot, rich, m, e := CourseStart(stats, was, max, sizes, hand, willing);
      var i: nat, limit: nat := 0, 5;
      inRange := true;
      while i < limit
        invariant i <= |stats| && Sound(hand) && inRange
        invariant SoFar(stats, was, caps, max, sizes, had, i, limit, hand) && Course(stats, was, caps, max, sizes, i, limit, hand, m, e, willing, bare, plot, rich)
        decreases |stats| + 1 - i
      {
        SoFarEnd(stats, was, caps, max, sizes, had, i, limit, hand);
        CourseGoes(stats, was, caps, max, sizes, i, limit, hand, m, e, willing, bare, plot, rich);
        if i == |stats| {
          AtEnd(stats, was, caps, max, sizes, had, limit, hand);
          inRange := false;
          break;
        }
        if stats[i].misses == 0 { break; }
        hand, limit, inRange := Turn(stats, i, limit, willing, hand, was, had, m, e, bare, plot, rich);
        if !inRange { break; }
        i := i + 1;
      }
      if inRange {
        SoFarEnd(stats, was, caps, max, sizes, had, i, limit, hand);
        CourseGoes(stats, was, caps, max, sizes, i, limit, hand, m, e, willing, bare, plot, rich);
      }
      available := available + hand;
    }
  }

  /** Whatever the classes have, there is an amount available and there are answers such that the statistics are read
      beyond their end, exactly if `MayPass`. */
  method WorstCase(sizes: seq<nat>, batch: seq<nat>, max: seq<nat>, caps: seq<nat>, stats: seq<Stat>) returns (inRange: bool)
    requires |sizes| == |batch| == |max| == |caps| && |sizes| > 5 && SizeMap(sizes, batch) && forall k :: 0 <= k < |caps| ==> caps[k] <= max[k]
    requires StatsFor(|sizes|, stats) && forall i :: 0 <= i < |stats| && stats[i].misses > 0 ==> sizes[stats[i].cls] > 0
    ensures inRange <==> !MayPass(stats, caps, max)
  {
    hide StatsFor, Certain, Robbed, SizeMap, Plot, NobodyGives, OnlyGives, CpuCache.Valid;
    if Certain(stats, caps, max) || !(exists m :: 0 <= m < |stats| && Robbed(stats, caps, max, m)) {
      var c := new CpuCache(sizes, batch, max, caps, 0);
      var none := (i: nat, k: nat) => false;
      Nobody(none);
      inRange := c.ResizeCpuSizeClasses(stats, none);
    } else {
      var m :| 0 <= m < |stats| && Robbed(stats, caps, max, m);
      Entries(stats, |sizes|);
      PlotAt(stats, caps, max, m);
      var f := FirstOpen(stats, caps, max, 0);
      var look, v := f, stats[m].cls;
      var one := (i: nat, k: nat) => i == look && k == v;
      IsPlot(stats, caps, max, sizes, one, m);
      var c := new CpuCache(sizes, batch, max, caps, Short(sizes[stats[f].cls], sizes[v]));
      inRange := c.ResizeCpuSizeClasses(stats, one);
    }
  }

  lemma Nobody(willing: (nat, nat) -> bool)
    requires forall i: nat, k: nat :: !willing(i, k)
    ensures NobodyGives(willing)
  {
  }

  lemma IsPlot(stats: seq<Stat>, caps: seq<nat>, max: seq<nat>, sizes: seq<nat>, willing: (nat, nat) -> bool, m: nat)
    requires Robbed(stats, caps, max, m) && |sizes| == |caps| && forall i :: 0 <= i < |stats| ==> stats[i].cls < |sizes|
    requires var f := FirstOpen(stats, caps, max, 0); forall i: nat, k: nat :: willing(i, k) <==> i == f && k == stats[m].cls
    ensures Plotted(stats, caps, max, sizes, Short(sizes[stats[FirstOpen(stats, caps, max, 0)].cls], sizes[stats[m].cls]), willing)
  {
    assert Plot(stats, caps, max, sizes, Short(sizes[stats[FirstOpen(stats, caps, max, 0)].cls], sizes[stats[m].cls]), willing, m);
  }

  /** With any number of classes from six on, if all have had misses and are full the statistics are read beyond their end, whatever
      the answers would be. */
  method AllFull(n: nat, willing: (nat, nat) -> bool) returns (inRange: bool)
    requires n > 5
    ensures !inRange
  {
    var stats := seq(n - 1, i requires 0 <= i < n - 1 => Stat(i + 1, 1));
    var ones := seq(n, i => 1);
    EveryoneFull(stats, ones, n - 1);
    NoRoom(stats, ones, ones, 0);
    assert Plenty(stats, ones, ones, ones, 0, n - 1);
    var c := new CpuCache(ones, ones, ones, ones, 0);
    inRange := c.ResizeCpuSizeClasses(stats, willing);
  }

  lemma {:induction false} NoRoom(stats: seq<Stat>, caps: seq<nat>, sizes: seq<nat>, i: nat)
    requires i <= |stats| && |caps| == |sizes| && forall j :: 0 <= j < |stats| ==> stats[j].cls < |caps|
    ensures Room(stats, caps, caps, sizes, i, |stats|) == 0
    decreases |stats| - i
  {
    if i < |stats| { NoRoom(stats, caps, sizes, i + 1); }
  }

  lemma {:induction false} EveryoneFull(stats: seq<Stat>, caps: seq<nat>, i: nat)
    requires i <= |stats| && forall j :: 0 <= j < |stats| ==> stats[j].cls < |caps|
    ensures Full(stats, caps, caps, i) == i
  {
    if i > 0 { EveryoneFull(stats, caps, i - 1); }
  }

  // ----- one look -----

  /** Only the capacity of class `c` has changed. */
  ghost predicate Same(c: nat, before: seq<nat>, caps: seq<nat>) {
    |before| == |caps| && forall k :: 0 <= k < |caps| && k != c ==> caps[k] == before[k]
  }

  /** Classes still to be looked at lose at most, those that are to grow gain at most; if the statistics do not
      suffice nobody else is touched. */
  ghost predicate Changed(stats: seq<Stat>, i: nat, limit: nat, before: seq<nat>, caps: seq<nat>) {
    |before| == |caps| &&
    (forall j :: i < j < |stats| && stats[j].cls < |caps| ==> caps[stats[j].cls] <= before[stats[j].cls]) &&
    (forall j :: 0 <= j < |stats| && j < limit && stats[j].cls < |caps| && stats[j].misses > 0 ==> caps[stats[j].cls] >= before[stats[j].cls]) &&
    (limit > |stats| ==> forall j :: i < j < |stats| && stats[j].cls < |caps| ==> caps[stats[j].cls] == before[stats[j].cls])
  }

  ghost predicate Looked(stats: seq<Stat>, max: seq<nat>, sizes: seq<nat>, i: nat, limit: nat, before: seq<nat>, hand: nat,
                         caps: seq<nat>, rest: nat, limit': nat, inRange: bool) {
    i < |stats| && stats[i].cls < |caps| == |sizes| && Changed(stats, i, limit, before, caps) &&
    if IsFull(stats[i].cls, before, max) then limit' == Least(|stats| + 1, limit + 1) && caps == before && rest == hand && inRange
    else limit' == limit && (!inRange ==> limit > |stats|) && (limit > |stats| && hand < sizes[stats[i].cls] ==> !inRange)
  }

  /** If there is enough the class gets all it may have. */
  ghost predicate Spent(max: seq<nat>, sizes: seq<nat>, c: nat, before: seq<nat>, hand: nat, caps: seq<nat>, rest: nat, inRange: bool) {
    c < |before| == |max| == |sizes| && var cost := Cost(Short(max[c], before[c]), sizes[c]);
    hand >= cost ==> inRange && rest == hand - cost && caps == before[c := max[c]]
  }

  /** Class `v` is the only one that gives, may be taken from, and just so much is in hand. */
  ghost predicate Gave(stats: seq<Stat>, i: nat, limit: nat, w: nat -> bool, sizes: seq<nat>, caps: seq<nat>, hand: nat, v: nat) {
    Solo(w, v) && 0 < v < |caps| == |sizes| && i < |stats| && v != stats[i].cls < |sizes| && caps[v] > 0 && sizes[v] > 0 && limit <= |stats| &&
    (forall j :: 0 <= j < limit ==> stats[j].cls != v) && hand == Short(sizes[stats[i].cls], sizes[v])
  }

  /** What classes that are not to grow were asked for, some have given. */
  ghost predicate Between(stats: seq<Stat>, limit: nat, w: nat -> bool, before: seq<nat>, mid: seq<nat>) {
    |mid| == |before| &&
    (mid == before ||
     (limit <= |stats| && forall k :: 0 <= k < |mid| ==> mid[k] == before[k] || (k > 0 && mid[k] == Taken(stats[..limit], w, before, k))))
  }

  lemma ChangedNot(stats: seq<Stat>, i: nat, limit: nat, w: nat -> bool, caps: seq<nat>)
    ensures Changed(stats, i, limit, caps, caps) && Between(stats, limit, w, caps, caps) && forall c :: Same(c, caps, caps)
  {
  }

  /** The class that grows is not taken from. */
  lemma Spared(stats: seq<Stat>, i: nat, limit: nat, w: nat -> bool, before: seq<nat>, mid: seq<nat>)
    requires StatsFor(|before|, stats) && i < |stats| && i < limit && stats[i].misses > 0 && Between(stats, limit, w, before, mid)
    ensures mid[stats[i].cls] == before[stats[i].cls]
  {
    if mid != before { NotFromThese(stats, limit, w, before); }
    hide Taken, InOrder;
  }

  lemma ChangedBy(stats: seq<Stat>, i: nat, limit: nat, w: nat -> bool, before: seq<nat>, mid: seq<nat>, caps: seq<nat>)
    requires StatsFor(|before|, stats) && i < |stats| && Between(stats, limit, w, before, mid)
    requires Same(stats[i].cls, mid, caps) && mid[stats[i].cls] <= caps[stats[i].cls]
    ensures Changed(stats, i, limit, before, caps)
    ensures mid == before ==> Same(stats[i].cls, before, caps)
  {
    if mid != before { NotFromThese(stats, limit, w, before); }
    hide Taken, InOrder;
  }

  lemma GaveParts(stats: seq<Stat>, i: nat, limit: nat, w: nat -> bool, sizes: seq<nat>, caps: seq<nat>, hand: nat, v: nat)
    ensures Gave(stats, i, limit, w, sizes, caps, hand, v) ==>
              v < |caps| == |sizes| && i < |stats| && v != stats[i].cls < |sizes| && caps[v] > 0 && sizes[v] > 0 && limit <= |stats| &&
              hand == Short(sizes[stats[i].cls], sizes[v]) && hand + sizes[v] >= sizes[stats[i].cls] && (sizes[stats[i].cls] > 0 ==> hand < sizes[stats[i].cls])
  {
  }

  lemma OneGiver(stats: seq<Stat>, i: nat, limit: nat, w: nat -> bool, sizes: seq<nat>, was: seq<nat>, now: seq<nat>, hand: nat, v: nat,
                 acquired: nat, bytes: nat)
    requires Gave(stats, i, limit, w, sizes, was, hand, v) && |now| == |was| && bytes > 0
    requires forall k :: 0 <= k < |now| ==> now[k] == was[k] || (k > 0 && now[k] == Taken(stats[..limit], w, was, k))
    requires acquired < bytes ==> forall k :: 1 <= k < |now| ==> now[k] == Taken(stats[..limit], w, was, k)
    requires Bytes(sizes, now) + acquired == Bytes(sizes, was)
    ensures now == was[v := was[v] - 1] && acquired == sizes[v]
  {
    hide Bytes;
    var dest := stats[..limit];
    assert forall k :: 0 <= k < |was| ==> Taken(dest, w, was, k) == if k == v then was[v] - 1 else was[k];
    BytesShrink(sizes, was, v);
    assert now == was || now == was[v := was[v] - 1];
  }

  ghost predicate Paid(n: nat, size: nat, bytes: nat, rest: nat) { rest + Cost(n, size) == bytes }

  lemma LessLeft(size: nat, other: nat, got: nat, hand: nat, rest: nat)
    requires size > 0 && other > 0 && got > 0 && hand == Short(size, other) && Paid(got, size, hand + other, rest)
    ensures rest < other
  {
    MulLe(1, got, size);
  }

  lemma Moves(sizes: seq<nat>, batch: seq<nat>, cls: nat)
    requires SizeMap(sizes, batch) && cls < |sizes| && sizes[cls] > 0
    ensures batch[cls] > 0
  {
  }

  lemma Answers(willing: (nat, nat) -> bool, i: nat, w: nat -> bool, look: nat, v: nat)
    requires forall k: nat :: w(k) == willing(i, k)
    ensures NobodyGives(willing) ==> Mute(w)
    ensures OnlyGives(willing, look, v) ==> if i == look then Solo(w, v) else Mute(w)
  {
  }

  // ----- all looks -----

  /** The five first have not lost anything. */
  ghost predicate TopFive(stats: seq<Stat>, was: seq<nat>, caps: seq<nat>) {
    |caps| == |was| && forall j :: 0 <= j < 5 && j < |stats| && stats[j].cls < |caps| && stats[j].misses > 0 ==> caps[stats[j].cls] >= was[stats[j].cls]
  }

  /** What is known after `i` looks: those had misses; the classes to come have not gained anything, and if one has lost
      something it is five places or more after the first that may have more. */
  ghost predicate Looking(stats: seq<Stat>, was: seq<nat>, caps: seq<nat>, max: seq<nat>, i: nat, limit: nat) {
    |caps| == |was| && i <= |stats| && 5 <= limit <= |stats| + 1 && limit <= 5 + Full(stats, was, max, i) &&
    (forall j :: 0 <= j < i ==> stats[j].misses > 0) &&
    var f := FirstOpen(stats, was, max, 0);
    limit >= Least(|stats| + 1, 5 + Least(i, f)) &&
    forall j :: i <= j < |stats| && stats[j].cls < |caps| ==>
      caps[stats[j].cls] <= was[stats[j].cls] && (stats[j].misses > 0 && caps[stats[j].cls] < was[stats[j].cls] ==> f < i && f + 5 <= j)
  }

  /** The first class has grown if it could. */
  ghost predicate Gains(stats: seq<Stat>, was: seq<nat>, caps: seq<nat>, max: seq<nat>, sizes: seq<nat>, available: nat, i: nat, hand: nat) {
    |caps| == |was| == |sizes| == |max| && |stats| > 0 && stats[0].cls < |caps| && (i == 0 ==> caps == was && hand == available) &&
    (i > 0 ==> stats[0].misses > 0) &&
    (i > 0 && sizes[stats[0].cls] <= available && was[stats[0].cls] < max[stats[0].cls] ==> caps[stats[0].cls] > was[stats[0].cls])
  }

  ghost predicate SoFar(stats: seq<Stat>, was: seq<nat>, caps: seq<nat>, max: seq<nat>, sizes: seq<nat>, available: nat, i: nat, limit: nat, hand: nat) {
    Looking(stats, was, caps, max, i, limit) && TopFive(stats, was, caps) && Gains(stats, was, caps, max, sizes, available, i, hand)
  }

  lemma KeepsFive(stats: seq<Stat>, was: seq<nat>)
    ensures TopFive(stats, was, was)
  {
  }

  lemma LookStart(stats: seq<Stat>, was: seq<nat>, max: seq<nat>, sizes: seq<nat>, hand: nat)
    requires |stats| >= 5 && |was| == |max| == |sizes| && stats[0].cls < |was|
    ensures SoFar(stats, was, was, max, sizes, hand, 0, 5, hand) && Barely(stats, was, max, 0, 5)
  {
    FullNone(stats, was, max);
  }

  lemma LookNext(stats: seq<Stat>, was: seq<nat>, before: seq<nat>, caps: seq<nat>, max: seq<nat>, sizes: seq<nat>, i: nat, limit: nat,
                 next: nat, hand: nat, rest: nat, inRange: bool)
    requires Looking(stats, was, before, max, i, limit) && i < |stats| && stats[i].misses > 0
    requires Looked(stats, max, sizes, i, limit, before, hand, caps, rest, next, inRange)
    ensures inRange ==> Looking(stats, was, caps, max, i + 1, next)
    ensures !inRange ==> MayPass(stats, was, max)
  {
    FullNext(stats, was, max, i);
    hide Full;
    var f := FirstOpen(stats, was, max, 0);
    var c := stats[i].cls;
    if i < f { assert caps == before; }
    if !inRange {
      assert PastEnd(stats, was, max, i);
      if IsFull(c, was, max) { assert Robbed(stats, was, max, i); } else { assert Wants(stats, was, max, i); }
    }
  }

  lemma Parts(stats: seq<Stat>, max: seq<nat>, sizes: seq<nat>, i: nat, limit: nat, before: seq<nat>, hand: nat, caps: seq<nat>, rest: nat, limit': nat, inRange: bool)
    requires Looked(stats, max, sizes, i, limit, before, hand, caps, rest, limit', inRange)
    ensures Changed(stats, i, limit, before, caps)
    ensures limit <= |stats| + 1 ==> limit <= limit' <= |stats| + 1
  {
  }

  lemma FiveNext(stats: seq<Stat>, was: seq<nat>, before: seq<nat>, caps: seq<nat>, i: nat, limit: nat)
    requires TopFive(stats, was, before) && Changed(stats, i, limit, before, caps) && limit >= 5
    ensures TopFive(stats, was, caps)
  {
  }

  lemma GainsNext(stats: seq<Stat>, was: seq<nat>, before: seq<nat>, caps: seq<nat>, max: seq<nat>, sizes: seq<nat>, available: nat, i: nat, limit: nat,
                  hand: nat, rest: nat, inRange: bool)
    requires Gains(stats, was, before, max, sizes, available, i, hand) && Changed(stats, i, limit, before, caps) && limit > 0
    requires i < |stats| && stats[i].misses > 0 && stats[i].cls < |caps|
    requires inRange && hand >= sizes[stats[i].cls] && before[stats[i].cls] < max[stats[i].cls] ==> caps[stats[i].cls] > before[stats[i].cls]
    ensures inRange ==> Gains(stats, was, caps, max, sizes, available, i + 1, rest)
  {
  }

  lemma SoFarNext(stats: seq<Stat>, was: seq<nat>, before: seq<nat>, caps: seq<nat>, max: seq<nat>, sizes: seq<nat>, available: nat, i: nat, limit: nat,
                  next: nat, hand: nat, rest: nat, inRange: bool)
    requires SoFar(stats, was, before, max, sizes, available, i, limit, hand) && i < |stats| && stats[i].misses > 0
    requires Looked(stats, max, sizes, i, limit, before, hand, caps, rest, next, inRange)
    requires inRange && hand >= sizes[stats[i].cls] && before[stats[i].cls] < max[stats[i].cls] ==> caps[stats[i].cls] > before[stats[i].cls]
    ensures if inRange then SoFar(stats, was, caps, max, sizes, available, i + 1, next, rest) else MayPass(stats, was, max)
    ensures TopFive(stats, was, caps) && 5 <= next <= |stats| + 1
  {
    LookNext(stats, was, before, caps, max, sizes, i, limit, next, hand, rest, inRange);
    Parts(stats, max, sizes, i, limit, before, hand, caps, rest, next, inRange);
    assert 5 <= limit <= |stats| + 1;
    hide Looked, Looking, Changed, TopFive, Gains;
    FiveNext(stats, was, before, caps, i, limit);
    GainsNext(stats, was, before, caps, max, sizes, available, i, limit, hand, rest, inRange);
  }

  lemma SoFarEnd(stats: seq<Stat>, was: seq<nat>, caps: seq<nat>, max: seq<nat>, sizes: seq<nat>, available: nat, i: nat, limit: nat, hand: nat)
    requires SoFar(stats, was, caps, max, sizes, available, i, limit, hand)
    ensures TopFive(stats, was, caps) && 5 <= limit <= |stats| + 1
    ensures i > 0 && sizes[stats[0].cls] <= available && was[stats[0].cls] < max[stats[0].cls] ==> caps[stats[0].cls] > was[stats[0].cls]
  {
  }

  lemma AtEnd(stats: seq<Stat>, was: seq<nat>, caps: seq<nat>, max: seq<nat>, sizes: seq<nat>, available: nat, limit: nat, hand: nat)
    requires SoFar(stats, was, caps, max, sizes, available, |stats|, limit, hand) && limit > |stats|
    ensures Certain(stats, was, max) && MayPass(stats, was, max)
  {
    assert PastEnd(stats, was, max, |stats|) && Wants(stats, was, max, |stats|);
  }

  // ----- if nobody gives anything -----

  /** After `i` looks it is known how many there will be, and that the statistics sufficed. */
  ghost predicate Barely(stats: seq<Stat>, was: seq<nat>, max: seq<nat>, i: nat, limit: nat) {
    i <= |stats| && limit == Least(|stats| + 1, 5 + Full(stats, was, max, i)) &&
    forall j :: 0 <= j < i ==> stats[j].misses > 0 && !(PastEnd(stats, was, max, j) && Wants(stats, was, max, j))
  }

  lemma BareNext(stats: seq<Stat>, was: seq<nat>, max: seq<nat>, sizes: seq<nat>, i: nat, limit: nat, next: nat, rest: nat, inRange: bool)
    requires Barely(stats, was, max, i, limit) && i < |stats| && stats[i].misses > 0
    requires Looked(stats, max, sizes, i, limit, was, 0, was, rest, next, inRange) && sizes[stats[i].cls] > 0
    ensures if inRange then Barely(stats, was, max, i + 1, next) else Certain(stats, was, max)
  {
    FullNext(stats, was, max, i);
    hide Full;
    if !inRange { assert PastEnd(stats, was, max, i) && Wants(stats, was, max, i); }
  }

  /** What is known in the two cases: nobody gives anything, or one class does at the wrong time. */
  ghost predicate Course(stats: seq<Stat>, was: seq<nat>, caps: seq<nat>, max: seq<nat>, sizes: seq<nat>, i: nat, limit: nat, hand: nat, m: nat,
                         e: nat, willing: (nat, nat) -> bool, bare: bool, plot: bool, rich: bool) {
    (bare ==> NobodyGives(willing) && hand == 0 && caps == was && Barely(stats, was, max, i, limit)) &&
    (plot ==> Plotting(stats, was, caps, max, sizes, i, limit, hand, m, willing)) && (rich ==> Rich(stats, was, caps, max, sizes, i, limit, hand, e))
  }

  lemma CourseStart(stats: seq<Stat>, was: seq<nat>, max: seq<nat>, sizes: seq<nat>, hand: nat, willing: (nat, nat) -> bool)
    returns (bare: bool, plot: bool, rich: bool, m: nat, e: nat)
    requires |stats| >= 5 && |was| == |max| == |sizes| && stats[0].cls < |was|
    ensures bare == (hand == 0 && NobodyGives(willing)) && plot == Plotted(stats, was, max, sizes, hand, willing)
    ensures rich == exists e :: Plenty(stats, was, max, sizes, hand, e)
    ensures SoFar(stats, was, was, max, sizes, hand, 0, 5, hand) && Course(stats, was, was, max, sizes, 0, 5, hand, m, e, willing, bare, plot, rich)
  {
    bare, plot := hand == 0 && NobodyGives(willing), Plotted(stats, was, max, sizes, hand, willing);
    rich := exists e :: Plenty(stats, was, max, sizes, hand, e);
    m := Planner(stats, was, max, sizes, hand, willing);
    e := 0;
    if rich {
      e :| Plenty(stats, was, max, sizes, hand, e);
      RichStart(stats, was, max, sizes, hand, e);
    }
    LookStart(stats, was, max, sizes, hand);
    hide *;
    CourseParts(stats, was, was, max, sizes, 0, 5, hand, m, e, willing, bare, plot, rich);
  }

  lemma CourseParts(stats: seq<Stat>, was: seq<nat>, caps: seq<nat>, max: seq<nat>, sizes: seq<nat>, i: nat, limit: nat, hand: nat, m: nat,
                    e: nat, willing: (nat, nat) -> bool, bare: bool, plot: bool, rich: bool)
    requires rich ==> Rich(stats, was, caps, max, sizes, i, limit, hand, e)
    requires bare ==> NobodyGives(willing) && hand == 0 && caps == was && Barely(stats, was, max, i, limit)
    requires plot ==> Plotting(stats, was, caps, max, sizes, i, limit, hand, m, willing)
    ensures Course(stats, was, caps, max, sizes, i, limit, hand, m, e, willing, bare, plot, rich)
  {
  }

  /** In the second case the end is not reached; in the first, only if the statistics suffice. */
  lemma CourseGoes(stats: seq<Stat>, was: seq<nat>, caps: seq<nat>, max: seq<nat>, sizes: seq<nat>, i: nat, limit: nat, hand: nat, m: nat,
                   e: nat, willing: (nat, nat) -> bool, bare: bool, plot: bool, rich: bool)
    requires Course(stats, was, caps, max, sizes, i, limit, hand, m, e, willing, bare, plot, rich)
    ensures plot ==> i < limit && i <= m < |stats| && stats[i].misses > 0 && stats[m].misses > 0
    ensures rich ==> i < limit && (i < |stats| ==> stats[i].misses > 0)
    ensures bare && (i >= limit || (i < |stats| && stats[i].misses == 0)) ==> !Certain(stats, was, max)
  {
    hide Plotting, Barely, Certain, NobodyGives, Rich;
    if rich { RichGoes(stats, was, caps, max, sizes, i, limit, hand, e); }
    PlotGoes(stats, was, caps, max, sizes, i, limit, hand, m, willing);
    if bare && (i >= limit || (i < |stats| && stats[i].misses == 0)) { BareEnd(stats, was, max, i, limit); }
  }

  lemma BareEnd(stats: seq<Stat>, was: seq<nat>, max: seq<nat>, i: nat, limit: nat)
    requires Barely(stats, was, max, i, limit) && (i >= limit || (i < |stats| && stats[i].misses == 0))
    ensures !Certain(stats, was, max)
  {
    NotCertain(stats, was, max, i);
  }

  // ----- if there is plenty -----

  /** After `i` looks those classes have all they may, and there is just enough for the others. */
  ghost predicate Rich(stats: seq<Stat>, was: seq<nat>, caps: seq<nat>, max: seq<nat>, sizes: seq<nat>, i: nat, limit: nat, hand: nat, e: nat) {
    i <= e <= |stats| && |caps| == |was| == |max| == |sizes| && (forall j :: 0 <= j < |stats| ==> stats[j].cls < |caps|) &&
    PastEnd(stats, was, max, e) && Wants(stats, was, max, e) && hand == Room(stats, was, max, sizes, i, e) &&
    limit == Least(|stats| + 1, 5 + Full(stats, was, max, i)) && forall j :: i <= j < |stats| ==> caps[stats[j].cls] == was[stats[j].cls]
  }

  lemma RichStart(stats: seq<Stat>, was: seq<nat>, max: seq<nat>, sizes: seq<nat>, hand: nat, e: nat)
    requires Plenty(stats, was, max, sizes, hand, e) && |stats| >= 5
    ensures Rich(stats, was, was, max, sizes, 0, 5, hand, e)
  {
    FullNone(stats, was, max);
    hide Full, Room;
  }

  lemma RichGoes(stats: seq<Stat>, was: seq<nat>, caps: seq<nat>, max: seq<nat>, sizes: seq<nat>, i: nat, limit: nat, hand: nat, e: nat)
    requires Rich(stats, was, caps, max, sizes, i, limit, hand, e)
    ensures i < limit && (i < |stats| ==> stats[i].misses > 0)
  {
    hide Full, Room;
    FullSoFar(stats, was, max, i, e);
  }

  lemma RichNext(stats: seq<Stat>, was: seq<nat>, before: seq<nat>, caps: seq<nat>, max: seq<nat>, sizes: seq<nat>, i: nat, limit: nat, next: nat,
                 had: nat, hand: nat, e: nat)
    requires Rich(stats, was, before, max, sizes, i, limit, had, e) && StatsFor(|sizes|, stats) && i < |stats| && sizes[stats[i].cls] > 0
    requires Looked(stats, max, sizes, i, limit, before, had, caps, hand, next, true)
    requires !IsFull(stats[i].cls, before, max) ==> Spent(max, sizes, stats[i].cls, before, had, caps, hand, true)
    ensures Rich(stats, was, caps, max, sizes, i + 1, next, hand, e)
  {
    FullNext(stats, was, max, i);
    RoomNext(stats, was, max, sizes, i, e);
    hide Full, Room, Cost, InOrder;
  }

  lemma RoomNext(stats: seq<Stat>, caps: seq<nat>, max: seq<nat>, sizes: seq<nat>, i: nat, m: nat)
    requires i < |stats| && m <= |stats| && |caps| == |max| == |sizes| && forall j :: 0 <= j < |stats| ==> stats[j].cls < |caps|
    ensures i < m ==> Room(stats, caps, max, sizes, i, m) ==
                        Cost(Short(max[stats[i].cls], caps[stats[i].cls]), sizes[stats[i].cls]) + Room(stats, caps, max, sizes, i + 1, m)
    ensures i >= m ==> Room(stats, caps, max, sizes, i, m) == 0
    ensures IsFull(stats[i].cls, caps, max) ==> Cost(Short(max[stats[i].cls], caps[stats[i].cls]), sizes[stats[i].cls]) == 0
  {
  }

  // ----- if one class gives to the first that may have more -----

  function ClassAt(stats: seq<Stat>, m: nat): nat { if m < |stats| then stats[m].cls else 0 }

  /** After `i` looks nothing has changed yet, or the class at `m` has given and there is less left than it needs. */
  ghost predicate Plotting(stats: seq<Stat>, was: seq<nat>, caps: seq<nat>, max: seq<nat>, sizes: seq<nat>, i: nat, limit: nat, hand: nat, m: nat,
                           willing: (nat, nat) -> bool) {
    Robbed(stats, was, max, m) && |caps| == |was| == |sizes| && i <= m && limit == Least(|stats| + 1, 5 + Full(stats, was, max, i)) &&
    var f, v := FirstOpen(stats, was, max, 0), stats[m].cls;
    stats[f].cls < |sizes| && OnlyGives(willing, f, v) &&
    if i <= f then caps == was && hand == Short(sizes[stats[f].cls], sizes[v])
    else caps[v] + 1 == was[v] && hand < sizes[v] && forall j :: i <= j < m && stats[j].cls < |caps| ==> caps[stats[j].cls] == was[stats[j].cls]
  }

  lemma Planner(stats: seq<Stat>, caps: seq<nat>, max: seq<nat>, sizes: seq<nat>, available: nat, willing: (nat, nat) -> bool) returns (m: nat)
    ensures Plotted(stats, caps, max, sizes, available, willing) ==> Plotting(stats, caps, caps, max, sizes, 0, 5, available, m, willing)
  {
    FullNone(stats, caps, max);
    m := 0;
    if Plotted(stats, caps, max, sizes, available, willing) {
      m :| Plot(stats, caps, max, sizes, available, willing, m);
    }
  }

  lemma SmallPlot(stats: seq<Stat>, caps: seq<nat>, max: seq<nat>, sizes: seq<nat>, batch: seq<nat>, available: nat, willing: (nat, nat) -> bool)
    requires SizeMap(sizes, batch)
    ensures Plotted(stats, caps, max, sizes, available, willing) ==> available < MAX_CPU_CACHE_SIZE
  {
    hide OnlyGives, Full;
    if Plotted(stats, caps, max, sizes, available, willing) {
      var m :| Plot(stats, caps, max, sizes, available, willing, m);
      assert sizes[stats[FirstOpen(stats, caps, max, 0)].cls] <= MAX_SIZE;
    }
  }

  lemma PlotGoes(stats: seq<Stat>, was: seq<nat>, caps: seq<nat>, max: seq<nat>, sizes: seq<nat>, i: nat, limit: nat, hand: nat, m: nat,
                 willing: (nat, nat) -> bool)
    ensures Plotting(stats, was, caps, max, sizes, i, limit, hand, m, willing) ==>
              i < limit && i <= m < |stats| && stats[i].misses > 0 && stats[m].misses > 0
  {
    hide Full;
    if Plotting(stats, was, caps, max, sizes, i, limit, hand, m, willing) { FullSoFar(stats, was, max, i, m); }
  }

  lemma PlotNext(stats: seq<Stat>, was: seq<nat>, before: seq<nat>, caps: seq<nat>, max: seq<nat>, sizes: seq<nat>, i: nat, limit: nat, next: nat,
                 had: nat, hand: nat, m: nat, willing: (nat, nat) -> bool, w: nat -> bool)
    requires Plotting(stats, was, before, max, sizes, i, limit, had, m, willing) && Looked(stats, max, sizes, i, limit, before, had, caps, hand, next, true)
    requires forall k: nat :: w(k) == willing(i, k)
    requires Mute(w) ==> hand <= had && Same(stats[i].cls, before, caps)
    requires !IsFull(stats[i].cls, before, max) && Gave(stats, i, limit, w, sizes, before, had, stats[m].cls) ==>
               hand < sizes[stats[m].cls] && Same(stats[i].cls, before[stats[m].cls := before[stats[m].cls] - 1], caps)
    requires StatsFor(|sizes|, stats) && |max| == |sizes| && was[stats[m].cls] <= max[stats[m].cls] && sizes[stats[m].cls] > 0
    ensures Plotting(stats, was, caps, max, sizes, i + 1, next, hand, m, willing)
  {
    var f, v := FirstOpen(stats, was, max, 0), stats[m].cls;
    Answers(willing, i, w, f, v);
    FullNext(stats, was, max, i);
    FullBound(stats, was, max, 0, i);
    FullNone(stats, was, max);
    hide Full, Robbed, FirstOpen, InOrder, Mute, Solo, OnlyGives, Changed;
    if i == f {
      PlotAt(stats, was, max, m);
      assert Gave(stats, i, limit, w, sizes, before, had, v);
    } else if i > f {
      hide Gave;
      PlotEnds(stats, was, before, max, sizes, i, limit, had, m, willing);
      if i < m { assert stats[i].cls != v; }
    } else {
      hide Gave, Same;
      assert caps == before;
    }
  }

  lemma PlotAt(stats: seq<Stat>, was: seq<nat>, max: seq<nat>, m: nat)
    requires Robbed(stats, was, max, m)
    ensures var f := FirstOpen(stats, was, max, 0); f + 5 <= m && m < |stats| && was[stats[m].cls] > 0 && !IsFull(stats[f].cls, was, max)
  {
  }

  /** When its turn comes the statistics do not suffice. */
  lemma PlotEnds(stats: seq<Stat>, was: seq<nat>, caps: seq<nat>, max: seq<nat>, sizes: seq<nat>, i: nat, limit: nat, hand: nat, m: nat,
                 willing: (nat, nat) -> bool)
    requires Plotting(stats, was, caps, max, sizes, i, limit, hand, m, willing) && i > FirstOpen(stats, was, max, 0)
    requires |max| == |was| && was[stats[m].cls] <= max[stats[m].cls]
    ensures i == m ==> limit > |stats| && !IsFull(stats[m].cls, caps, max) && hand < sizes[stats[m].cls]
  {
    hide FirstOpen, Full;
  }

  lemma Entries(stats: seq<Stat>, n: nat)
    requires StatsFor(n, stats)
    ensures |stats| + 1 == n && forall i :: 0 <= i < |stats| ==> stats[i].cls < n
  {
  }

  /** What a class has left when it was asked: one less, if it is not to grow, is willing and has any. */
  ghost function Taken(dest: seq<Stat>, willing: nat -> bool, caps: seq<nat>, k: nat): nat
    requires k < |caps|
  {
    if (exists j :: 0 <= j < |dest| && dest[j].cls == k && dest[j].misses != 0) || !willing(k) || caps[k] == 0 then caps[k] else caps[k] - 1
  }

  lemma Skips(dest: seq<Stat>, willing: nat -> bool, caps: seq<nat>, was: seq<nat>, k: nat)
    requires k < |caps| == |was| && caps[k] == was[k]
    ensures Taken(dest, willing, was, k) ==
            if (exists j :: 0 <= j < |dest| && dest[j].cls == k && dest[j].misses != 0) || !willing(k) || caps[k] == 0 then caps[k] else caps[k] - 1
  {
  }

  /** Nothing is taken from the classes that are to grow; from the others, if anything. */
  lemma NotFromThese(stats: seq<Stat>, limit: nat, willing: nat -> bool, caps: seq<nat>)
    requires limit <= |stats|
    ensures forall j :: 0 <= j < limit && stats[j].misses > 0 && stats[j].cls < |caps| ==>
              Taken(stats[..limit], willing, caps, stats[j].cls) == caps[stats[j].cls]
    ensures forall k :: 0 <= k < |caps| ==> Taken(stats[..limit], willing, caps, k) <= caps[k]
  {
    var dest := stats[..limit];
    forall j | 0 <= j < limit && stats[j].misses > 0 && stats[j].cls < |caps| ensures Taken(dest, willing, caps, stats[j].cls) == caps[stats[j].cls] {
      assert dest[j].cls == stats[j].cls && dest[j].misses != 0;
    }
  }

  lemma MuteTakes(dest: seq<Stat>, willing: nat -> bool, caps: seq<nat>)
    requires Mute(willing)
    ensures forall k :: 0 <= k < |caps| ==> Taken(dest, willing, caps, k) == caps[k]
  {
  }

  /** Going round from `start` the first `t` classes visited; class 0 is left out. */
  predicate Visited(n: nat, start: nat, t: nat, k: nat) { k > 0 && (start <= k < start + t || k + n <= start + t) }

  lemma VisitNext(n: nat, start: nat, i: nat, source: nat)
    requires 1 <= start < n && 1 <= i < n && source == if start + i - 1 < n then start + i - 1 else start + i - n
    ensures 1 <= source < n && !Visited(n, start, i - 1, source)
    ensures forall k: nat :: k < n ==> (Visited(n, start, i, k) <==> Visited(n, start, i - 1, k) || k == source)
  {
  }

  lemma AllVisited(n: nat, start: nat, t: nat)
    requires 1 <= start < n && t == n - 1
    ensures forall k: nat :: 1 <= k < n ==> Visited(n, start, t, k)
  {
  }

  /** The bytes for as many objects as may be added, a batch at most. */
  function Need(room: nat, batch: nat, size: nat): nat { Least(room, batch) * size }

  lemma NeedSome(room: nat, batch: nat, size: nat)
    requires room > 0 && batch > 0
    ensures size <= Need(room, batch, size) <= Cost(room, size)
  {
    MulLe(1, Least(room, batch), size);
    MulLe(Least(room, batch), room, size);
  }

  lemma BytesGrow(sizes: seq<nat>, caps: seq<nat>, cls: nat, n: nat)
    requires |sizes| == |caps| && cls < |caps|
    ensures Bytes(sizes, caps[cls := caps[cls] + n]) == Bytes(sizes, caps) + Cost(n, sizes[cls])
  {
    BytesSet(sizes, caps, cls, caps[cls] + n);
    Expand(sizes[cls], caps[cls], n);
  }

  lemma BytesShrink(sizes: seq<nat>, caps: seq<nat>, cls: nat)
    requires |sizes| == |caps| && cls < |caps| && caps[cls] > 0
    ensures Bytes(sizes, caps[cls := caps[cls] - 1]) == Bytes(sizes, caps) - sizes[cls]
  {
    BytesSet(sizes, caps, cls, caps[cls] - 1);
    Expand(sizes[cls], caps[cls] - 1, 1);
  }

  lemma Leftover(bytes: nat, size: nat)
    requires size > 0
    ensures bytes - bytes / size * size < size && (bytes >= size ==> bytes / size > 0)
  {
    DivParts(bytes, size);
    if bytes / size == 0 { assert bytes / size * size == 0; }
  }

  lemma FitsAll(n: nat, bytes: nat, size: nat)
    requires size > 0 && bytes >= n * size
    ensures bytes / size >= n
  {
    DivParts(bytes, size);
    if bytes / size < n { MulLe(bytes / size + 1, n, size); }
  }

  /** What `hand` bytes are good for, and what is left. */
  lemma Growth(room: nat, hand: nat, size: nat)
    requires size > 0
    ensures var got := Least(room, hand / size);
      Cost(got, size) <= hand && (got == room || hand - Cost(got, size) < size) && (hand >= size && room > 0 ==> got > 0) &&
      (hand == 0 ==> got == 0) && (hand >= Cost(room, size) ==> got == room)
  {
    if hand == 0 { DivIs(0, size, 0); }
    if hand >= Cost(room, size) { FitsAll(room, hand, size); }
    var got := Least(room, hand / size);
    FitsIn(got, hand, size);
    Leftover(hand, size);
  }

  lemma FitsIn(n: nat, bytes: nat, size: nat)
    requires size > 0 && n <= bytes / size
    ensures n * size <= bytes
  {
    DivParts(bytes, size);
    MulLe(n, bytes / size, size);
  }

  /** What `subtract_at_least` gets is enough for as many objects as are wanted and available. */
  lemma Shares(available: nat, n: nat, size: nat)
    requires size > 0
    ensures var acquired := if available < size then 0 else Least(available, n * size);
      acquired <= available && acquired / size == Least(n, available / size)
  {
    DivParts(available, size);
    var q := available / size;
    if available < size {
      DivIs(available, size, 0);
      DivIs(0, size, 0);
    } else if n <= q {
      MulLe(n, q, size);
      DivIs(n * size, size, n);
    } else {
      MulLe(q + 1, n, size);
    }
  }
}

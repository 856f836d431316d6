/** How the limits on what each size class may cache per CPU follow the misses
    (tcmalloc/cpu_cache.h). */
module CpuMaxCapacity {
  import opened Arithmetic

  /** Misses of a size class in the last interval. */
  datatype Stat = Stat(cls: nat, misses: nat)

  /** A new limit for a size class. */
  datatype Limit = Limit(cls: nat, max: nat)

  // ----- most misses first -----

  predicate Before(a: Stat, b: Stat) { if a.misses == b.misses then a.cls < b.cls else a.misses > b.misses }

  ghost predicate InOrder(s: seq<Stat>) { forall i, j :: 0 <= i < j < |s| ==> Before(s[i], s[j]) }

  function Insert(x: Stat, s: seq<Stat>): seq<Stat> {
    if s == [] || Before(x, s[0]) then [x] + s else [s[0]] + Insert(x, s[1..])
  }

  function Sorted(s: seq<Stat>): seq<Stat> {
    if s == [] then [] else Insert(s[0], Sorted(s[1..]))
  }

  lemma {:induction false} InsertKeeps(x: Stat, s: seq<Stat>)
    requires InOrder(s) && forall i :: 0 <= i < |s| ==> s[i].cls != x.cls
    ensures InOrder(Insert(x, s)) && multiset(Insert(x, s)) == multiset(s) + multiset{x}
    decreases s
  {
    if s != [] && !Before(x, s[0]) {
      var rest := Insert(x, s[1..]);
      InsertKeeps(x, s[1..]);
      assert s == [s[0]] + s[1..];
      forall k | 0 <= k < |rest| ensures Before(s[0], rest[k]) {
        assert rest[k] in multiset(rest);
        assert rest[k] == x || rest[k] in s[1..];
      }
    } else {
      assert multiset([x] + s) == multiset(s) + multiset{x};
    }
  }

  ghost predicate Distinct(s: seq<Stat>) { forall i, j :: 0 <= i < j < |s| ==> s[i].cls != s[j].cls }

  /** Sorting gives the same statistics, most misses first and smaller classes first among equals. */
  lemma {:induction false} SortedIs(s: seq<Stat>)
    requires Distinct(s)
    ensures InOrder(Sorted(s)) && multiset(Sorted(s)) == multiset(s) && |Sorted(s)| == |s|
    decreases s
  {
    if s != [] {
      SortedIs(s[1..]);
      var rest := Sorted(s[1..]);
      assert s == [s[0]] + s[1..];
      forall i | 0 <= i < |rest| ensures rest[i].cls != s[0].cls {
        assert rest[i] in multiset(rest);
        assert rest[i] in s[1..];
      }
      InsertKeeps(s[0], rest);
    }
    assert |multiset(Sorted(s))| == |multiset(s)|;
  }

  /** In sorted statistics of all classes each class is somewhere, once. */
  lemma ClassesOnce(s: seq<Stat>, n: nat)
    requires |s| == n && forall i :: 0 <= i < n ==> s[i].cls == i
    ensures Distinct(s) && |Sorted(s)| == n && InOrder(Sorted(s)) && Distinct(Sorted(s)) && forall i :: 0 <= i < n ==> Sorted(s)[i].cls < n
  {
    SortedIs(s);
    var t := Sorted(s);
    forall i | 0 <= i < n ensures t[i].cls < n {
      assert t[i] in multiset(t);
      assert t[i] in s;
    }
    forall i, j | 0 <= i < j < n ensures t[i].cls != t[j].cls {
      assert t[i] in multiset(t) && t[j] in multiset(t);
      assert t[i] in s && t[j] in s;
      assert Before(t[i], t[j]);
    }
  }

  // ----- limits applied -----

  ghost function Sum(caps: seq<nat>): nat {
    if caps == [] then 0 else caps[0] + Sum(caps[1..])
  }

  lemma {:induction false} SumSet(caps: seq<nat>, c: nat, v: nat)
    requires c < |caps|
    ensures Sum(caps[c := v]) == Sum(caps) - caps[c] + v
    decreases caps
  {
    if c > 0 {
      SumSet(caps[1..], c - 1, v);
      assert caps[c := v][1..] == caps[1..][c - 1 := v];
    } else {
      assert caps[c := v][1..] == caps[1..];
    }
  }

  /** The limits after all of `changes`. */
  ghost function Applied(caps: seq<nat>, changes: seq<Limit>): (r: seq<nat>)
    ensures |r| == |caps|
  {
    if changes == [] then caps
    else
      var last := changes[|changes| - 1];
      var r := Applied(caps, changes[..|changes| - 1]);
      if last.cls < |caps| then r[last.cls := last.max] else r
  }

  lemma AppliedMore(caps: seq<nat>, changes: seq<Limit>, x: Limit)
    requires x.cls < |caps|
    ensures Applied(caps, changes + [x]) == Applied(caps, changes)[x.cls := x.max]
  {
    assert (changes + [x])[..|changes|] == changes;
  }

  ghost predicate ClassesDiffer(changes: seq<Limit>) { forall i, j :: 0 <= i < j < |changes| ==> changes[i].cls != changes[j].cls }

  /** Class `c` is among the first `g` in `order`, if it goes `up`, or else among those after `k`. */
  ghost predicate Place(order: seq<Stat>, g: int, k: int, c: nat, up: bool) {
    exists j :: 0 <= j < |order| && (if up then j < g && order[j].misses > 0 else j > k) && order[j].cls == c
  }

  lemma PlaceAt(order: seq<Stat>, g: int, k: int, j: nat, up: bool)
    requires j < |order| && if up then j < g && order[j].misses > 0 else j > k
    ensures Place(order, g, k, order[j].cls, up)
  {
  }

  lemma PlaceMore(order: seq<Stat>, g: int, k: int, c: nat, up: bool)
    requires Place(order, g, k, c, up)
    ensures Place(order, g, k - 1, c, up) && Place(order, g + 1, k, c, up)
  {
    var j :| 0 <= j < |order| && (if up then j < g && order[j].misses > 0 else j > k) && order[j].cls == c;
    PlaceAt(order, g, k - 1, j, up);
    PlaceAt(order, g + 1, k, j, up);
  }

  ghost predicate Up(caps: seq<nat>, x: Limit) { x.cls < |caps| && x.max > caps[x.cls] }

  ghost predicate Touched(caps: seq<nat>, order: seq<Stat>, changes: seq<Limit>, g: int, k: int) {
    forall i :: 0 <= i < |changes| ==> Place(order, g, k, changes[i].cls, Up(caps, changes[i]))
  }

  /** A change is one, and leaves room for a batch if it is for less. */
  ghost predicate Proper(caps: seq<nat>, batch: seq<nat>, x: Limit) {
    x.cls < |caps| && x.cls < |batch| && x.max != caps[x.cls] && (x.max < caps[x.cls] ==> x.max >= batch[x.cls])
  }

  /** What holds of a set of changes: no class twice, each proper, and they cancel out but for `owed`. */
  ghost predicate Fair(caps: seq<nat>, batch: seq<nat>, changes: seq<Limit>, owed: int) {
    ClassesDiffer(changes) && Sum(Applied(caps, changes)) + owed == Sum(caps) &&
    forall i :: 0 <= i < |changes| ==> Proper(caps, batch, changes[i])
  }

  /** A class that has not been touched still has its old limit. */
  lemma {:induction false} Untouched(caps: seq<nat>, changes: seq<Limit>, c: nat)
    requires c < |caps| && forall i :: 0 <= i < |changes| ==> changes[i].cls != c
    ensures Applied(caps, changes)[c] == caps[c]
    decreases changes
  {
    if changes != [] { Untouched(caps, changes[..|changes| - 1], c); }
  }

  lemma NotYet(caps: seq<nat>, order: seq<Stat>, changes: seq<Limit>, g: int, k: int, at: nat)
    requires Distinct(order) && Touched(caps, order, changes, g, k) && at < |order| && g <= at <= k
    ensures forall i :: 0 <= i < |changes| ==> changes[i].cls != order[at].cls
  {
    forall i | 0 <= i < |changes| ensures changes[i].cls != order[at].cls {
      var up := Up(caps, changes[i]);
      assert Place(order, g, k, changes[i].cls, up);
      var j :| 0 <= j < |order| && (if up then j < g && order[j].misses > 0 else j > k) && order[j].cls == changes[i].cls;
    }
  }

  /** One more change, to the class at `at` in `order`. */
  lemma OneMore(caps: seq<nat>, batch: seq<nat>, order: seq<Stat>, changes: seq<Limit>, owed: int, g: int, k: int, at: nat, max: nat)
    requires Distinct(order) && at < |order| && g <= at <= k && Touched(caps, order, changes, g, k) && Fair(caps, batch, changes, owed)
    requires Proper(caps, batch, Limit(order[at].cls, max))
    ensures Fair(caps, batch, changes + [Limit(order[at].cls, max)], owed + caps[order[at].cls] - max)
  {
    var x := Limit(order[at].cls, max);
    NotYet(caps, order, changes, g, k, at);
    Untouched(caps, changes, x.cls);
    AppliedMore(caps, changes, x);
    SumSet(Applied(caps, changes), x.cls, max);
    hide Sum, Applied, Proper;
  }

  lemma TouchedLess(caps: seq<nat>, order: seq<Stat>, changes: seq<Limit>, g: int, k: int)
    requires Touched(caps, order, changes, g, k)
    ensures Touched(caps, order, changes, g, k - 1) && Touched(caps, order, changes, g + 1, k)
  {
    hide Place, Up;
    forall i | 0 <= i < |changes|
      ensures Place(order, g, k - 1, changes[i].cls, Up(caps, changes[i])) && Place(order, g + 1, k, changes[i].cls, Up(caps, changes[i]))
    {
      PlaceMore(order, g, k, changes[i].cls, Up(caps, changes[i]));
    }
  }

  lemma TouchedMore(caps: seq<nat>, order: seq<Stat>, changes: seq<Limit>, g: int, k: int, at: nat, max: nat)
    requires Touched(caps, order, changes, g, k) && at < |order| && order[at].cls < |caps|
    requires if max > caps[order[at].cls] then at < g && order[at].misses > 0 else at > k
    ensures Touched(caps, order, changes + [Limit(order[at].cls, max)], g, k)
  {
    PlaceAt(order, g, k, at, max > caps[order[at].cls]);
    assert Up(caps, Limit(order[at].cls, max)) == (max > caps[order[at].cls]);
    hide Place, Up;
  }

  // ----- the choice of new limits -----

  /** What a class can give up in one go. */
  function Gives(caps: seq<nat>, batch: seq<nat>, c: nat): nat {
    if c < |caps| && c < |batch| && caps[c] > batch[c] then Least(batch[c], caps[c] - batch[c]) else 0
  }

  /** What the classes after `g` up to `k` in `order` can give up. */
  ghost function Spare(caps: seq<nat>, batch: seq<nat>, order: seq<Stat>, g: nat, k: int): nat
    requires k < |order|
    decreases k - g
  {
    if k <= g then 0 else Gives(caps, batch, order[k].cls) + Spare(caps, batch, order, g, k - 1)
  }

  /** Find up to `target` in limits of the classes at the end of `order`, no further than `g`. */
  method Shrink(caps: seq<nat>, batch: seq<nat>, order: seq<Stat>, out: array<Limit>, g: nat, from: int, index: nat, target: nat)
    returns (next: nat, shrinkIndex: int, shrunk: nat)
    requires |caps| == |batch| == |order| <= out.Length && Distinct(order) && (forall i :: 0 <= i < |order| ==> order[i].cls < |caps|)
    requires g <= from < |order| && index + (from - g) < |order|
    requires Fair(caps, batch, out[..index], 0) && Touched(caps, order, out[..index], g, from)
    modifies out
    ensures index <= next && g <= shrinkIndex <= from && next + (shrinkIndex - g) < |order| && shrunk <= target
    ensures Fair(caps, batch, out[..next], shrunk) && Touched(caps, order, out[..next], g, shrinkIndex)
    ensures shrunk == Least(target, Spare(caps, batch, order, g, from))
    ensures out[..index] == old(out[..index]) && (shrunk == 0 ==> next == index)
  {
    hide Sum, Applied, Fair, Touched, Distinct;
    next, shrinkIndex, shrunk := index, from, 0;
    while shrinkIndex > g && shrunk < target
      invariant index <= next && g <= shrinkIndex <= from && next + (shrinkIndex - g) < |order| && shrunk <= target
      invariant Fair(caps, batch, out[..next], shrunk) && Touched(caps, order, out[..next], g, shrinkIndex)
      invariant out[..index] == old(out[..index]) && (shrunk == 0 ==> next == index)
      invariant Least(target, shrunk + Spare(caps, batch, order, g, shrinkIndex)) == Least(target, Spare(caps, batch, order, g, from))
    {
      var cls := order[shrinkIndex].cls;
      var toShrink := if caps[cls] <= batch[cls] then 0 else Least(Least(target - shrunk, batch[cls]), caps[cls] - batch[cls]);
      TouchedLess(caps, order, out[..next], g, shrinkIndex);
      if toShrink > 0 {
        OneMore(caps, batch, order, out[..next], shrunk, g, shrinkIndex, shrinkIndex, caps[cls] - toShrink);
        TouchedMore(caps, order, out[..next], g, shrinkIndex - 1, shrinkIndex, caps[cls] - toShrink);
        ghost var sofar := out[..next];
        Write(out, next, Limit(cls, caps[cls] - toShrink));
        assert out[..index] == out[..next + 1][..index] == sofar[..index];
        next := next + 1;
        shrunk := shrunk + toShrink;
      }
      shrinkIndex := shrinkIndex - 1;
    }
  }

  method Write(out: array<Limit>, i: nat, x: Limit)
    requires i < out.Length
    modifies out
    ensures out[..i + 1] == old(out[..i]) + [x]
  {
    out[i] := x;
  }

  ghost predicate StatsOf(misses: seq<nat>, order: seq<Stat>) {
    |order| == |misses| && InOrder(order) && Distinct(order) && forall i :: 0 <= i < |order| ==> order[i].cls < |misses| && order[i].misses == misses[order[i].cls]
  }

  lemma SortedStats(misses: seq<nat>, s: seq<Stat>)
    requires |s| == |misses| && forall i :: 0 <= i < |s| ==> s[i] == Stat(i, misses[i])
    ensures StatsOf(misses, Sorted(s))
  {
    ClassesOnce(s, |s|);
    SortedIs(s);
    var t := Sorted(s);
    forall i | 0 <= i < |t| ensures t[i].misses == misses[t[i].cls] {
      assert t[i] in multiset(t);
      assert t[i] in s;
    }
  }

  /** Choose new limits for some classes: classes with many misses grow by what classes with few
      give up. The `count` changes are in `out`. They add up to nothing, no class has two, no class
      gives up room for its batch, and whoever gets more had more misses than whoever gives. */
  method GetUpdatedMaxCapacities(misses: seq<nat>, caps: seq<nat>, batch: seq<nat>, out: array<Limit>) returns (count: nat)
    requires |misses| == |caps| == |batch| <= out.Length && |caps| > 0
    modifies out
    ensures count <= |caps| && Fair(caps, batch, out[..count], 0)
    ensures TopGains(misses, caps, batch, out[..count])
    ensures forall i :: 0 <= i < count && Up(caps, out[i]) ==> misses[out[i].cls] > 0
    ensures forall i, j :: 0 <= i < count && 0 <= j < count && Up(caps, out[i]) && !Up(caps, out[j]) ==>
              Before(Stat(out[i].cls, misses[out[i].cls]), Stat(out[j].cls, misses[out[j].cls]))
  {
    hide Sum, Applied, Fair, Touched, Distinct, Place, StatsOf, Spare, Ranking, TopGains, Up, Before, Gives;
    var order := Ranking(misses);
    StatsParts(misses, order);
    var n := |misses|;
    var grown, growthFactor, shrinkIndex, g := 0, 5, n - 1, 0;
    ghost var top := order[0].cls;
    ghost var gain := Least(batch[top] * 5, Spare(caps, batch, order, 0, n - 1));
    SpareNone(caps, batch, order);
    count := 0;
    NoChange(caps, batch, order, out[..0], g, shrinkIndex);
    while g < n && order[g].misses > 0 && grown < n / 2
      invariant 0 <= g <= n && g - 1 <= shrinkIndex < n && count + (shrinkIndex - g) < n && growthFactor > 0
      invariant if g == 0 then count == 0 && grown == 0 && growthFactor == 5 && shrinkIndex == n - 1
                else order[0].misses > 0 && gain > 0 && Limit(top, caps[top] + gain) in out[..count]
      invariant Fair(caps, batch, out[..count], 0) && Touched(caps, order, out[..count], g, shrinkIndex)
    {
      if shrinkIndex < g { break; }
      ghost var sofar := out[..count];
      var next, shrunk;
      next, shrinkIndex, shrunk := Shrink(caps, batch, order, out, g, shrinkIndex, count, batch[order[g].cls] * growthFactor);
      if shrunk == 0 {
        assert out[..count] == sofar;
        break;
      }
      GrowOne(caps, batch, order, out, g, shrinkIndex, next, shrunk);
      Kept(out[..next + 1], sofar, Limit(top, caps[top] + gain));
      count := next + 1;
      grown := grown + 1;
      growthFactor := if growthFactor > 1 then growthFactor - 1 else 1;
      g := g + 1;
    }
    TopDone(misses, caps, batch, order, out[..count], gain);
    Ranked(misses, caps, order, out[..count], g, shrinkIndex);
  }

  /** The class with the most misses gets five batches, or all the others can give if that is less;
      if it has no misses or gets nothing, nothing is changed. */
  ghost predicate TopGains(misses: seq<nat>, caps: seq<nat>, batch: seq<nat>, changes: seq<Limit>)
    requires |misses| == |caps| == |batch| > 0
  {
    var order := Ranking(misses);
    var top := order[0].cls;
    var gain := Least(batch[top] * 5, Spare(caps, batch, order, 0, |order| - 1));
    if misses[top] == 0 || gain == 0 then changes == [] else Limit(top, caps[top] + gain) in changes
  }

  lemma TopDone(misses: seq<nat>, caps: seq<nat>, batch: seq<nat>, order: seq<Stat>, changes: seq<Limit>, gain: nat)
    requires |misses| == |caps| == |batch| > 0 && order == Ranking(misses)
    requires gain == Least(batch[order[0].cls] * 5, Spare(caps, batch, order, 0, |order| - 1))
    requires if misses[order[0].cls] == 0 || gain == 0 then changes == [] else Limit(order[0].cls, caps[order[0].cls] + gain) in changes
    ensures TopGains(misses, caps, batch, changes)
  {
  }

  /** Write down that the class at `g` gets what the others gave up. */
  method GrowOne(caps: seq<nat>, batch: seq<nat>, order: seq<Stat>, out: array<Limit>, g: nat, k: int, next: nat, shrunk: nat)
    requires |caps| == |batch| == |order| && Distinct(order) && g < |order| && order[g].cls < |caps| && order[g].misses > 0 && g <= k
    requires next < out.Length && shrunk > 0 && Fair(caps, batch, out[..next], shrunk) && Touched(caps, order, out[..next], g, k)
    modifies out
    ensures Fair(caps, batch, out[..next + 1], 0) && Touched(caps, order, out[..next + 1], g + 1, k)
    ensures out[..next + 1] == old(out[..next]) + [Limit(order[g].cls, caps[order[g].cls] + shrunk)]
  {
    hide Sum, Applied, Fair, Touched, Distinct, Place;
    var cls := order[g].cls;
    OneMore(caps, batch, order, out[..next], shrunk, g, k, g, caps[cls] + shrunk);
    TouchedLess(caps, order, out[..next], g, k);
    TouchedMore(caps, order, out[..next], g + 1, k, g, caps[cls] + shrunk);
    Write(out, next, Limit(cls, caps[cls] + shrunk));
  }

  lemma Kept(all: seq<Limit>, before: seq<Limit>, x: Limit)
    requires |before| <= |all| && all[..|before|] == before
    ensures x in before ==> x in all
  {
  }

  lemma SpareNone(caps: seq<nat>, batch: seq<nat>, order: seq<Stat>)
    ensures |order| == 1 ==> Spare(caps, batch, order, 0, 0) == 0
  {
  }

  /** All classes by misses, most first. */
  function Ranking(misses: seq<nat>): (order: seq<Stat>)
    ensures StatsOf(misses, order)
  {
    var s := seq(|misses|, i requires 0 <= i < |misses| => Stat(i, misses[i]));
    SortedStats(misses, s);
    Sorted(s)
  }

  lemma StatsParts(misses: seq<nat>, order: seq<Stat>)
    requires StatsOf(misses, order)
    ensures |order| == |misses| && Distinct(order) && forall i :: 0 <= i < |order| ==> order[i].cls < |misses| && order[i].misses == misses[order[i].cls]
  {
  }

  lemma NoChange(caps: seq<nat>, batch: seq<nat>, order: seq<Stat>, none: seq<Limit>, g: int, k: int)
    requires none == []
    ensures Fair(caps, batch, none, 0) && Touched(caps, order, none, g, k)
  {
  }

  lemma Ranked(misses: seq<nat>, caps: seq<nat>, order: seq<Stat>, changes: seq<Limit>, g: int, k: int)
    requires StatsOf(misses, order) && |caps| == |misses| && Touched(caps, order, changes, g, k) && g - 1 <= k
    ensures forall i :: 0 <= i < |changes| ==> changes[i].cls < |misses|
    ensures forall i :: 0 <= i < |changes| && Up(caps, changes[i]) ==> misses[changes[i].cls] > 0
    ensures forall i, j :: 0 <= i < |changes| && 0 <= j < |changes| && Up(caps, changes[i]) && !Up(caps, changes[j]) ==>
              Before(Stat(changes[i].cls, misses[changes[i].cls]), Stat(changes[j].cls, misses[changes[j].cls]))
  {
    forall i | 0 <= i < |changes| ensures changes[i].cls < |misses| {
      assert Place(order, g, k, changes[i].cls, Up(caps, changes[i]));
    }
    forall i | 0 <= i < |changes| && Up(caps, changes[i]) ensures misses[changes[i].cls] > 0 {
      assert Place(order, g, k, changes[i].cls, true);
    }
    forall i, j | 0 <= i < |changes| && 0 <= j < |changes| && Up(caps, changes[i]) && !Up(caps, changes[j])
      ensures Before(Stat(changes[i].cls, misses[changes[i].cls]), Stat(changes[j].cls, misses[changes[j].cls]))
    {
      assert Place(order, g, k, changes[i].cls, true) && Place(order, g, k, changes[j].cls, false);
      var a :| 0 <= a < |order| && a < g && order[a].misses > 0 && order[a].cls == changes[i].cls;
      var b :| 0 <= b < |order| && b > k && order[b].cls == changes[j].cls;
      assert Before(order[a], order[b]);
    }
  }
}

/** Searching the treap: the nearest range below an address, the first range,
    the next range; and widening a range in place. */
module TreapSearch {
  import opened Arithmetic
  import opened HugePages
  import opened Treap
  import opened TreapSteps

  /** `i` is the last position whose range starts at or below `p` (-1 if none does). */
  ghost predicate IsPredecessor(s: seq<Entry>, p: int, i: int) {
    -1 <= i < |s| &&
    (forall k :: 0 <= k <= i ==> s[k].range.start <= p) &&
    (forall k :: i < k < |s| ==> s[k].range.start > p)
  }

  function NodeAt(s: seq<Entry>, i: int): Node? {
    if 0 <= i < |s| then s[i].node else null
  }

  /** Walking down for `p`: what lies left of `t` starts at or below `p`, what lies
      right of it starts above, and `best` is the last range on the left. */
  ghost predicate PredInv(c: Ctx, t: Tree, tree: Tree, p: int, best: Node?) {
    Plug(c, t) == tree && AllBelow(Before(c), p + 1) && AllFrom(After(c), p + 1) &&
    best == NodeAt(Before(c), |Before(c)| - 1)
  }

  lemma PredStep(c: Ctx, t: Tree, tree: Tree, p: int, best: Node?) returns (d: Ctx, u: Tree)
    requires PredInv(c, t, tree, p, best) && t.Br? && Ordered(InOrder(tree))
    ensures if p < t.range.start then d == Under(c, t.node, t.range, t.prio, true, t.right) && u == t.left
            else d == Under(c, t.node, t.range, t.prio, false, t.left) && u == t.right
    ensures PredInv(d, u, tree, p, if p < t.range.start then best else t.node)
  {
    if p < t.range.start {
      d, u := Under(c, t.node, t.range, t.prio, true, t.right), t.left;
    } else {
      d, u := Under(c, t.node, t.range, t.prio, false, t.left), t.right;
    }
    DescendOrder(c, t, p + 1, d);
  }

  lemma PredFound(c: Ctx, t: Tree, tree: Tree, p: int, best: Node?) returns (i: int)
    requires PredInv(c, t, tree, p, best) && t.Br? && t.range.Contains(p) && Ordered(InOrder(tree))
    ensures IsPredecessor(InOrder(tree), p, i) && NodeAt(InOrder(tree), i) == t.node
  {
    var e, l, r := Entry(t.node, t.range), InOrder(t.left), InOrder(t.right);
    PlugInOrder(c, t);
    Regroup(Before(c), l, [e], r, After(c));
    var a, b := Before(c) + l, r + After(c);
    var s := InOrder(tree);
    assert s == a + [e] + b;
    i := |a|;
    forall k | i < k < |s| ensures s[k].range.start > p {
      assert RangesOf(s)[i] == e.range && RangesOf(s)[k] == s[k].range;
    }
    forall k | 0 <= k <= i ensures s[k].range.start <= p {
      assert RangesOf(s)[i] == e.range && RangesOf(s)[k] == s[k].range;
    }
  }

  lemma PredLeaf(c: Ctx, tree: Tree, p: int, best: Node?) returns (i: int)
    requires PredInv(c, Leaf, tree, p, best)
    ensures IsPredecessor(InOrder(tree), p, i) && NodeAt(InOrder(tree), i) == best
  {
    PlugInOrder(c, Leaf);
    assert InOrder(tree) == Before(c) + After(c);
    i := |Before(c)| - 1;
  }

  /** A node occurs at one position only. */
  lemma IndexUnique(h: Store, tree: Tree, i: nat, j: nat)
    requires Linked(h, tree, null) && Ordered(InOrder(tree)) && i < |InOrder(tree)| && j < |InOrder(tree)|
    requires InOrder(tree)[i].node == InOrder(tree)[j].node
    ensures i == j
  {
    InOrderNodes(h, tree, null);
    var s := RangesOf(InOrder(tree));
    assert s[i] == InOrder(tree)[i].range && s[j] == InOrder(tree)[j].range;
  }

  /** The position of a node, from where it sits. */
  lemma SeatIndex(h: Store, tree: Tree, c: Ctx, s: Tree, i: nat)
    requires Linked(h, tree, null) && Ordered(InOrder(tree)) && s.Br? && Plug(c, s) == tree
    requires i < |InOrder(tree)| && InOrder(tree)[i].node == s.node
    ensures i == |Before(c) + InOrder(s.left)|
    ensures InOrder(tree) == (Before(c) + InOrder(s.left)) + [Entry(s.node, s.range)] + (InOrder(s.right) + After(c))
  {
    PlugInOrder(c, s);
    Regroup(Before(c), InOrder(s.left), [Entry(s.node, s.range)], InOrder(s.right), After(c));
    var k := |Before(c) + InOrder(s.left)|;
    assert InOrder(tree)[k] == Entry(s.node, s.range);
    IndexUnique(h, tree, i, k);
  }

  /** Climbing out of right turns keeps what comes after. */
  lemma ClimbOut(h: Store, d: Ctx, last: Node)
    requires d.Under? && CtxLinked(h, d, last, null) && CtxDistinct(d) && last !in CtxNodes(d)
    ensures h[d.node].left == last <==> d.goLeft
    ensures d.goLeft ==> After(d) != [] && After(d)[0].node == d.node
    ensures !d.goLeft ==> After(d) == After(d.up)
    ensures CtxLinked(h, d.up, d.node, null) && CtxDistinct(d.up) && d.node !in CtxNodes(d.up)
    ensures h[d.node].parent == Owner(d.up)
  {
    if d.side.Br? { assert d.side.node in Nodes(d.side); }
  }

  // ----- widening a range in place -----

  /** The tree with the range of one node replaced. */
  ghost function Widened(c: Ctx, s: Tree, g: HugeRange): Tree
    requires s.Br?
  {
    Plug(c, Br(s.node, g, s.prio, s.left, s.right))
  }

  lemma WidenOrder(tree: Tree, c: Ctx, s: Tree, g: HugeRange) returns (a: seq<Entry>, b: seq<Entry>)
    requires s.Br? && Plug(c, s) == tree
    ensures a == Before(c) + InOrder(s.left) && b == InOrder(s.right) + After(c)
    ensures InOrder(tree) == a + [Entry(s.node, s.range)] + b && InOrder(Widened(c, s, g)) == a + [Entry(s.node, g)] + b
  {
    a, b := Before(c) + InOrder(s.left), InOrder(s.right) + After(c);
    PlugInOrder(c, s);
    PlugInOrder(c, Br(s.node, g, s.prio, s.left, s.right));
    Regroup(Before(c), InOrder(s.left), [Entry(s.node, s.range)], InOrder(s.right), After(c));
    Regroup(Before(c), InOrder(s.left), [Entry(s.node, g)], InOrder(s.right), After(c));
  }

  /** The context of the left child of the widened node. */
  ghost function WidenCtx(c: Ctx, s: Tree, g: HugeRange): Ctx
    requires s.Br?
  {
    Under(c, s.node, g, s.prio, true, s.right)
  }

  lemma WidenLinked(h: Store, m: Marks, tree: Tree, c: Ctx, s: Tree, g: HugeRange) returns (h': Store)
    requires TreapInv(h, m, tree) && s.Br? && Plug(c, s) == tree
    ensures s.node in h && h' == h[s.node := h[s.node].(range := g)]
    ensures Linked(h', Widened(c, s, g), null) && Distinct(Widened(c, s, g)) && Heap(Widened(c, s, g))
    ensures Nodes(Widened(c, s, g)) == Nodes(tree) && Root(Widened(c, s, g)) == Root(tree)
    ensures ClimbLinked(h', Climb(WidenCtx(c, s, g))) && Climb(WidenCtx(c, s, g)) != [] && Climb(WidenCtx(c, s, g))[0] == s.node
  {
    PlugLinked(h, c, s, null);
    PlugNodes(c, s);
    PlugHeap(c, s);
    h' := h[s.node := h[s.node].(range := g)];
    LinkedFrame(h, h', s.left, s.node);
    LinkedFrame(h, h', s.right, s.node);
    CtxFrame(h, h', c, s.node, null);
    var t := Br(s.node, g, s.prio, s.left, s.right);
    PlugLinked(h', c, t, null);
    PlugNodes(c, t);
    PlugHeap(c, t);
    PlugRoot(c, s);
    PlugRoot(c, t);
    CtxClimb(h', WidenCtx(c, s, g), Root(s.left));
  }

  lemma WidenExact(h: Store, m: Marks, tree: Tree, c: Ctx, s: Tree, g: HugeRange, h': Store, m': Marks)
    requires TreapInv(h, m, tree) && s.Br? && Plug(c, s) == tree
    requires Linked(h', Widened(c, s, g), null) && Distinct(Widened(c, s, g))
    requires Climbed(h', m, m', WidenCtx(c, s, g))
    ensures Exact(m', Widened(c, s, g))
  {
    var k := WidenCtx(c, s, g);
    PlugExact(m, c, s);
    PlugLinked(h', k, s.left, null);
    PlugNodes(k, s.left);
    CtxExactSides(m, c, Longest(s));
    ClimbNodes(k);
    PathInCtx(k);
    SidesFrame(m, m', k);
    ExactFrame(m, m', s.left);
    FixedGivesLocal(h', m', k);
    LocalGivesExact(h', m', k, Root(s.left), null, MarkAt(m', Root(s.left)));
    PlugExact(m', k, s.left);
  }

  /** Covered hugepages and total length when one range is replaced. */
  lemma WidenCounts(a: seq<Entry>, e: Entry, e': Entry, b: seq<Entry>, r: HugeRange)
    requires Pages(e'.range) == Pages(e.range) + Pages(r) && e'.range.len == e.range.len + r.len
    ensures |a + [e'] + b| == |a + [e] + b|
    ensures TotalLen(RangesOf(a + [e'] + b)) == TotalLen(RangesOf(a + [e] + b)) + r.len
    ensures Covered(RangesOf(a + [e'] + b)) == Covered(RangesOf(a + [e] + b)) + Pages(r)
  {
    RemoveCounts(a, e, b);
    RemoveCounts(a, e', b);
  }

  /** Replacing the entry at `i` keeps the order when it still fits its neighbours. */
  lemma UpdateOrder(s: seq<Entry>, i: nat, e: Entry)
    requires Ordered(s) && i < |s| && e.range.len > 0
    requires i > 0 ==> s[i - 1].range.End() < e.range.start
    requires i + 1 < |s| ==> e.range.End() < s[i + 1].range.start
    ensures Ordered(s[i := e])
  {
    var t := s[i := e];
    forall j, k | 0 <= j < k < |t| ensures t[j].range.End() < t[k].range.start {
      assert forall x :: 0 <= x < |s| ==> RangesOf(s)[x] == s[x].range;
    }
    assert forall x :: 0 <= x < |s| ==> RangesOf(s)[x] == s[x].range;
  }

  lemma UpdateSplit(s: seq<Entry>, i: nat, e: Entry)
    requires i < |s|
    ensures s == s[..i] + [s[i]] + s[i + 1..] && s[i := e] == s[..i] + [e] + s[i + 1..]
  {
  }

  // ----- the neighbours of a range that is to be inserted -----

  /** Looking at the two neighbours of `r` is enough to tell whether `r` overlaps
      anything in the map. */
  lemma NeighboursDecide(s: seq<Entry>, i: int, r: HugeRange)
    requires Ordered(s) && IsPredecessor(s, r.start, i) && r.len > 0
    ensures Covered(RangesOf(s)) !! Pages(r) <==>
            (i >= 0 ==> !s[i].range.Intersects(r)) && (i + 1 < |s| ==> !s[i + 1].range.Intersects(r))
  {
    var q := RangesOf(s);
    forall k | 0 <= k < |s| ensures q[k] == s[k].range && (q[k].Intersects(r) <==> !(Pages(q[k]) !! Pages(r))) {
      IntersectsIsOverlap(q[k], r);
    }
    forall k | 0 <= k < |s| && k != i && k != i + 1 ensures !s[k].range.Intersects(r) || (i + 1 < |s| && s[i + 1].range.Intersects(r)) {
      FarApart(s, i, r, k);
    }
    OverlapSome(q, r);
    hide Covered, Pages, Ordered;
  }

  /** A range further away overlaps `r` only if the next one does. */
  lemma FarApart(s: seq<Entry>, i: int, r: HugeRange, k: nat)
    requires Ordered(s) && IsPredecessor(s, r.start, i) && r.len > 0 && k < |s| && k != i && k != i + 1
    ensures !s[k].range.Intersects(r) || (i + 1 < |s| && s[i + 1].range.Intersects(r))
  {
    var q := RangesOf(s);
    assert q[k] == s[k].range;
    if k < i {
      assert q[i] == s[i].range && q[k].End() < q[i].start;
    } else {
      assert q[i + 1] == s[i + 1].range && q[i + 1].End() < q[k].start;
    }
  }

  lemma OverlapSome(q: seq<HugeRange>, r: HugeRange)
    ensures Covered(q) !! Pages(r) <==> forall k :: 0 <= k < |q| ==> Pages(q[k]) !! Pages(r)
  {
    forall p: int ensures p in Covered(q) <==> exists k :: 0 <= k < |q| && q[k].Contains(p) {
      CoveredMember(q, p);
    }
    if Covered(q) !! Pages(r) {
      forall k | 0 <= k < |q| ensures Pages(q[k]) !! Pages(r) {
        forall p | p in Pages(q[k]) ensures p !in Pages(r) {
          assert q[k].Contains(p);
        }
      }
    }
  }

  /** Where `r` lies between its neighbours. */
  ghost predicate Between(s: seq<Entry>, i: int, r: HugeRange) {
    -1 <= i < |s| && (i >= 0 ==> s[i].range.End() <= r.start) && (i + 1 < |s| ==> r.End() <= s[i + 1].range.start)
  }

  lemma BetweenNeighbours(s: seq<Entry>, i: int, r: HugeRange)
    requires Ordered(s) && IsPredecessor(s, r.start, i) && r.len > 0 && Covered(RangesOf(s)) !! Pages(r)
    ensures Between(s, i, r)
  {
    NeighboursDecide(s, i, r);
    assert forall k :: 0 <= k < |s| ==> RangesOf(s)[k] == s[k].range;
  }

  lemma BetweenApart(s: seq<Entry>, i: int, r: HugeRange)
    requires Ordered(s) && Between(s, i, r) && r.len > 0
    requires (i >= 0 ==> !s[i].range.Precedes(r)) && (i + 1 < |s| ==> !r.Precedes(s[i + 1].range))
    ensures Apart(s, r)
  {
    var q := RangesOf(s);
    forall k | 0 <= k < |s| ensures s[k].range.End() < r.start || r.End() < s[k].range.start {
      assert q[k] == s[k].range;
      assert k < i ==> q[k].End() < q[i].start;
      assert k > i + 1 ==> q[i + 1].End() < q[k].start;
    }
  }

  /** Growing the range below `r` upwards over `r`. */
  lemma GrowBefore(s: seq<Entry>, i: nat, r: HugeRange) returns (g: HugeRange)
    requires Ordered(s) && Between(s, i, r) && i < |s| && s[i].range.Precedes(r) && r.len > 0
    requires i + 1 < |s| ==> !r.Precedes(s[i + 1].range)
    ensures g == Join(s[i].range, r) && Ordered(s[i := Entry(s[i].node, g)])
    ensures Pages(g) == Pages(s[i].range) + Pages(r) && g.len == s[i].range.len + r.len
  {
    g := Join(s[i].range, r);
    assert forall k :: 0 <= k < |s| ==> RangesOf(s)[k] == s[k].range;
    UpdateOrder(s, i, Entry(s[i].node, g));
  }

  /** Growing the range above `r` downwards over `r`. */
  lemma GrowAfter(s: seq<Entry>, i: int, r: HugeRange) returns (g: HugeRange)
    requires Ordered(s) && Between(s, i, r) && i + 1 < |s| && r.Precedes(s[i + 1].range) && r.len > 0
    requires i >= 0 ==> !s[i].range.Precedes(r)
    ensures g == Join(r, s[i + 1].range) && Ordered(s[i + 1 := Entry(s[i + 1].node, g)])
    ensures Pages(g) == Pages(s[i + 1].range) + Pages(r) && g.len == s[i + 1].range.len + r.len
  {
    g := Join(r, s[i + 1].range);
    assert forall k :: 0 <= k < |s| ==> RangesOf(s)[k] == s[k].range;
    UpdateOrder(s, i + 1, Entry(s[i + 1].node, g));
  }

  /** Growing the range below `r` over `r` and the range above, whose entry is gone. */
  lemma GrowAcross(s: seq<Entry>, i: nat, r: HugeRange, t: seq<Entry>) returns (g: HugeRange, f: HugeRange)
    requires Ordered(s) && Between(s, i, r) && i + 1 < |s| && s[i].range.Precedes(r) && r.Precedes(s[i + 1].range) && r.len > 0
    requires t == s[..i + 1] + s[i + 2..]
    ensures f == Join(r, s[i + 1].range) && g == Join(s[i].range, f)
    ensures i < |t| && t[i] == s[i] && Ordered(t[i := Entry(s[i].node, g)])
    ensures Pages(f) == Pages(r) + Pages(s[i + 1].range) && f.len == r.len + s[i + 1].range.len
    ensures Pages(g) == Pages(s[i].range) + Pages(f) && g.len == s[i].range.len + f.len
  {
    f := Join(r, s[i + 1].range);
    g := Join(s[i].range, f);
    assert forall k :: 0 <= k < |s| ==> RangesOf(s)[k] == s[k].range;
    assert forall k :: 0 <= k < |t| ==> t[k] == if k <= i then s[k] else s[k + 1];
    assert Ordered(t) by {
      assert RangesOf(t) == RangesOf(s)[..i + 1] + RangesOf(s)[i + 2..];
    }
    UpdateOrder(t, i, Entry(s[i].node, g));
  }

  /** The treap with one range widened is sound, and so is the map. */
  lemma WidenDone(h: Store, m: Marks, tree: Tree, pool: seq<Node>, freelist: Node?, c: Ctx, s: Tree, g: HugeRange, h': Store, m': Marks)
    requires MapInv(h, m, tree, pool, freelist) && s.Br? && Plug(c, s) == tree && s.node in h
    requires h' == h[s.node := h[s.node].(range := g)] && Ordered(InOrder(Widened(c, s, g)))
    requires FixedBelow(h', m', Climb(WidenCtx(c, s, g)), |Climb(WidenCtx(c, s, g))|) && MarksKept(m, m', Climb(WidenCtx(c, s, g)))
    ensures MapInv(h', m', Widened(c, s, g), pool, freelist) && Root(Widened(c, s, g)) == Root(tree) && h'.Keys == h.Keys
  {
    var x := WidenLinked(h, m, tree, c, s, g);
    WidenExact(h, m, tree, c, s, g, h', m');
    PlugNodes(c, s);
    forall i | 0 <= i < |pool| ensures pool[i] in h' && h'[pool[i]] == h[pool[i]] {
      assert pool[i] in PoolSet(pool);
    }
    PoolFrame(h, h', pool, freelist);
  }

  /** The seat of the `i`-th node, and what widening it does to the order. */
  lemma WidenSeat(h: Store, m: Marks, tree: Tree, i: nat, g: HugeRange) returns (c: Ctx, s: Tree, a: seq<Entry>, b: seq<Entry>)
    requires TreapInv(h, m, tree) && i < |InOrder(tree)| && Ordered(InOrder(tree)[i := Entry(InOrder(tree)[i].node, g)])
    ensures s.Br? && s.node == InOrder(tree)[i].node && s.range == InOrder(tree)[i].range && Plug(c, s) == tree
    ensures InOrder(tree) == a + [InOrder(tree)[i]] + b
    ensures InOrder(Widened(c, s, g)) == a + [Entry(s.node, g)] + b == InOrder(tree)[i := Entry(s.node, g)]
    ensures Ordered(InOrder(Widened(c, s, g)))
  {
    InOrderNodes(h, tree, null);
    c, s := Locate(tree, InOrder(tree)[i].node);
    SeatIndex(h, tree, c, s, i);
    a, b := WidenOrder(tree, c, s, g);
  }

  /** Which entry a removal took out. */
  lemma DropSecond(h: Store, tree: Tree, i: nat, a: seq<Entry>, b: seq<Entry>, e: Entry)
    requires Linked(h, tree, null) && Ordered(InOrder(tree)) && i < |InOrder(tree)| && InOrder(tree) == a + [e] + b
    requires InOrder(tree)[i].node == e.node
    ensures |a| == i && a + b == InOrder(tree)[..i] + InOrder(tree)[i + 1..]
  {
    IndexUnique(h, tree, i, |a|);
  }

  lemma FloatParts(h: Store, tree: Tree, pool: seq<Node>, freelist: Node?)
    requires PoolApart(h, tree, pool, freelist, {})
    ensures PoolInv(h, pool, freelist)
  {
  }

  /** A removed range shares no hugepage with those that stay. */
  lemma RemovedApart(a: seq<Entry>, e: Entry, b: seq<Entry>)
    requires Ordered(a + [e] + b)
    ensures Covered(RangesOf(a + b)) !! Pages(e.range) && e.range.len > 0
  {
    var s, q := a + [e] + b, RangesOf(a + b);
    forall k | 0 <= k < |q| ensures Pages(q[k]) !! Pages(e.range) {
      assert q[k] == RangesOf(s)[if k < |a| then k else k + 1];
      assert RangesOf(s)[|a|] == e.range;
    }
    assert RangesOf(s)[|a|] == e.range;
    OverlapSome(q, e.range);
  }

  // ----- looking for a range of at least n hugepages -----

  /** Every range of at least `n` on the way down to the hole has at least `k`. */
  ghost predicate FitsAtLeast(c: Ctx, n: nat, k: nat) {
    c.Under? ==> (c.range.len >= n ==> c.range.len >= k) && FitsAtLeast(c.up, n, k)
  }

  lemma {:induction false} FitsAtLeastLess(c: Ctx, n: nat, k: nat, k': nat)
    requires FitsAtLeast(c, n, k) && k' <= k
    ensures FitsAtLeast(c, n, k')
  {
    if c.Under? { FitsAtLeastLess(c.up, n, k, k'); }
  }

  /** No range on the way down to the hole has `n`. */
  ghost predicate NoFits(c: Ctx, n: nat) {
    c.Under? ==> c.range.len < n && NoFits(c.up, n)
  }

  lemma {:induction false} NoFitsAny(c: Ctx, n: nat, k: nat)
    requires NoFits(c, n)
    ensures FitsAtLeast(c, n, k)
  {
    if c.Under? { NoFitsAny(c.up, n, k); }
  }

  /** The maximum at the root says there may be a range of at least `n`. */
  ghost predicate Has(t: Tree, n: nat) { t.Br? && Longest(t) >= n }

  ghost predicate SomeEntry(s: seq<Entry>, n: nat) { exists i :: 0 <= i < |s| && s[i].range.len >= n }

  lemma SomeAround(a: seq<Entry>, e: Entry, b: seq<Entry>, n: nat)
    ensures SomeEntry(a + [e] + b, n) <==> SomeEntry(a, n) || e.range.len >= n || SomeEntry(b, n)
  {
    var s := a + [e] + b;
    if SomeEntry(a, n) {
      var i :| 0 <= i < |a| && a[i].range.len >= n;
      assert s[i] == a[i];
    }
    if SomeEntry(b, n) {
      var i :| 0 <= i < |b| && b[i].range.len >= n;
      assert s[|a| + 1 + i] == b[i];
    }
    assert s[|a|] == e;
    if SomeEntry(s, n) {
      var i :| 0 <= i < |s| && s[i].range.len >= n;
      assert s[i] == if i < |a| then a[i] else if i == |a| then e else b[i - |a| - 1];
    }
  }

  /** ... and it is right. */
  lemma {:induction false} HasRange(t: Tree, n: nat)
    ensures Has(t, n) <==> SomeEntry(InOrder(t), n)
    decreases t
  {
    if t.Br? {
      HasRange(t.left, n);
      HasRange(t.right, n);
      SomeAround(InOrder(t.left), Entry(t.node, t.range), InOrder(t.right), n);
      assert InOrder(t) == InOrder(t.left) + [Entry(t.node, t.range)] + InOrder(t.right);
      assert Longest(t) == Most(t.range.len, Most(Longest(t.left), Longest(t.right)));
      assert t.left.Leaf? ==> Longest(t.left) == 0;
      assert t.right.Leaf? ==> Longest(t.right) == 0;
      hide SomeEntry, InOrder, Longest;
    }
  }

  /** Some range has at least `n` hugepages. */
  ghost predicate HasLength(s: seq<HugeRange>, n: nat) {
    exists i :: 0 <= i < |s| && s[i].len >= n
  }

  lemma HasFit(t: Tree, n: nat)
    ensures Has(t, n) <==> HasLength(RangesOf(InOrder(t)), n)
  {
    HasRange(t, n);
    assert forall i :: 0 <= i < |InOrder(t)| ==> RangesOf(InOrder(t))[i] == InOrder(t)[i].range;
    if i :| 0 <= i < |InOrder(t)| && InOrder(t)[i].range.len >= n {
      assert RangesOf(InOrder(t))[i].len >= n;
    }
  }

  /** `s` sits at the hole of `c`, has at least `n`, and is tighter than every
      fitting range above it. */
  ghost predicate Fit(tree: Tree, n: nat, c: Ctx, s: Tree) {
    s.Br? && Plug(c, s) == tree && s.range.len >= n && FitsAtLeast(c, n, s.range.len + 1)
  }

  lemma FitHas(tree: Tree, n: nat, c: Ctx, s: Tree)
    requires Fit(tree, n, c, s)
    ensures Has(tree, n) && s.node in Nodes(tree)
  {
    PlugNodes(c, s);
    PlugInOrder(c, s);
    Regroup(Before(c), InOrder(s.left), [Entry(s.node, s.range)], InOrder(s.right), After(c));
    assert InOrder(tree)[|Before(c) + InOrder(s.left)|].range == s.range;
    HasRange(tree, n);
  }

  lemma FitLinked(h: Store, tree: Tree, n: nat, c: Ctx, s: Tree)
    requires Fit(tree, n, c, s) && Linked(h, tree, null)
    ensures s.node in h
  {
    PlugLinked(h, c, s, null);
  }

  /** The search stands at `t`, below `c`; `bs`, below `bc`, is the best range so far. */
  ghost predicate FindInv(m: Marks, tree: Tree, n: nat, c: Ctx, t: Tree, bc: Ctx, bs: Tree) {
    Plug(c, t) == tree && Exact(m, t) &&
    if bs.Leaf? then NoFits(c, n) && (Has(tree, n) <==> Has(t, n))
    else Fit(tree, n, bc, bs) && FitsAtLeast(c, n, bs.range.len)
  }

  ghost predicate Better(t: Tree, n: nat, bs: Tree) {
    t.Br? && t.range.len >= n && (bs.Leaf? || bs.range.len > t.range.len)
  }

  ghost function Child(c: Ctx, t: Tree, goLeft: bool): (Ctx, Tree)
    requires t.Br?
  {
    if goLeft then (Under(c, t.node, t.range, t.prio, true, t.right), t.left)
    else (Under(c, t.node, t.range, t.prio, false, t.left), t.right)
  }

  /** Looking at `t` and stepping into one child, as long as that child is not
      given up while something is still to be found in the other. */
  lemma FindStep(m: Marks, tree: Tree, n: nat, c: Ctx, t: Tree, bc: Ctx, bs: Tree, goLeft: bool)
      returns (d: Ctx, u: Tree, bc': Ctx, bs': Tree)
    requires FindInv(m, tree, n, c, t, bc, bs) && Has(t, n)
    requires Has(t.left, n) || Has(t.right, n) ==> Has(if goLeft then t.left else t.right, n)
    ensures (d, u) == Child(c, t, goLeft) && (bc', bs') == if Better(t, n, bs) then (c, t) else (bc, bs)
    ensures FindInv(m, tree, n, d, u, bc', bs')
  {
    d, u := Child(c, t, goLeft).0, Child(c, t, goLeft).1;
    bc', bs' := if Better(t, n, bs) then c else bc, if Better(t, n, bs) then t else bs;
    if Better(t, n, bs) {
      if bs.Leaf? {
        NoFitsAny(c, n, t.range.len + 1);
      } else {
        FitsAtLeastLess(c, n, bs.range.len, t.range.len + 1);
      }
      FitsAtLeastLess(c, n, t.range.len + 1, t.range.len);
    } else if bs.Leaf? {
      assert Longest(t) == Most(t.range.len, Most(Longest(t.left), Longest(t.right)));
    }
  }

  /** What the order says about a node and its children. */
  lemma CheckOrder(t: Tree)
    requires t.Br? && Ordered(InOrder(t))
    ensures Ordered(InOrder(t.left)) && Ordered(InOrder(t.right))
    ensures t.left.Br? ==> t.left.range.End() < t.range.start
    ensures t.right.Br? ==> t.right.range.start > t.range.End()
  {
    var l, e, r := InOrder(t.left), Entry(t.node, t.range), InOrder(t.right);
    OrderedAround(l, e, r);
    if t.left.Br? {
      EntryBelow(l, e, r, |InOrder(t.left.left)|);
    }
    if t.right.Br? {
      EntryAbove(l, e, r, |InOrder(t.right.left)|);
    }
  }

  lemma EntryBelow(a: seq<Entry>, e: Entry, b: seq<Entry>, i: nat)
    requires Ordered(a + [e] + b) && i < |a|
    ensures a[i].range.End() < e.range.start
  {
    var q := RangesOf(a + [e] + b);
    assert q[i] == a[i].range && q[|a|] == e.range;
  }

  lemma EntryAbove(a: seq<Entry>, e: Entry, b: seq<Entry>, i: nat)
    requires Ordered(a + [e] + b) && i < |b|
    ensures e.range.End() < b[i].range.start
  {
    var q := RangesOf(a + [e] + b);
    assert q[|a|] == e.range && q[|a| + 1 + i] == b[i].range;
  }

  lemma CheckCounts(t: Tree)
    requires t.Br?
    ensures |InOrder(t)| == 1 + |InOrder(t.left)| + |InOrder(t.right)|
    ensures TotalLen(RangesOf(InOrder(t))) == t.range.len + TotalLen(RangesOf(InOrder(t.left))) + TotalLen(RangesOf(InOrder(t.right)))
  {
    assert InOrder(t) == InOrder(t.left) + [Entry(t.node, t.range)] + InOrder(t.right);
    hide InOrder, TotalLen, Covered, RangesOf;
    CountsAround(InOrder(t.left), Entry(t.node, t.range), InOrder(t.right));
  }

  lemma CountsAround(a: seq<Entry>, e: Entry, b: seq<Entry>)
    ensures |a + [e] + b| == 1 + |a| + |b|
    ensures TotalLen(RangesOf(a + [e] + b)) == e.range.len + TotalLen(RangesOf(a)) + TotalLen(RangesOf(b))
  {
    hide TotalLen, Covered;
    RemoveCounts(a, e, b);
    assert RangesOf(a + b) == RangesOf(a) + RangesOf(b);
    hide RangesOf;
    CoveredConcat(RangesOf(a), RangesOf(b));
  }
}

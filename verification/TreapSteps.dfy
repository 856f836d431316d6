/** The walks and rewrites of the treap, step by step, on values: what the
    in-place loops of the address map keep at every turn. */
module TreapSteps {
  import opened Arithmetic
  import opened HugePages
  import opened Treap

  /** The whole treap invariant: parent and child pointers agree with the tree,
      addresses are ordered and never touch, priorities form a heap and every
      node records the longest range below it. */
  ghost predicate TreapInv(h: Store, m: Marks, t: Tree) {
    Linked(h, t, null) && Distinct(t) && Heap(t) && Ordered(InOrder(t)) && Exact(m, t)
  }

  // ----- walking down to the place of a new node -----

  /** Walking down from the root of `tree` for a new range `r` of priority `prio`:
      `t` is still to be searched and the nodes above already allow for `r`. */
  ghost predicate DescendInv(m: Marks, c: Ctx, t: Tree, tree: Tree, r: HugeRange, prio: int) {
    Plug(c, t) == tree && AllBelow(Before(c), r.start) && AllFrom(After(c), r.start) &&
    (c.Under? ==> c.prio >= prio) && CtxExact(m, c, Most(Longest(t), r.len)) && Exact(m, t)
  }

  lemma DescendStart(m: Marks, tree: Tree, r: HugeRange, prio: int)
    requires Exact(m, tree)
    ensures DescendInv(m, Top, tree, tree, r, prio)
  {
  }

  lemma OrderedUnder(c: Ctx, t: Tree)
    requires t.Br? && Ordered(InOrder(Plug(c, t)))
    ensures AllBelow(Before(c) + (InOrder(t.left) + [Entry(t.node, t.range)]), t.range.start + 1)
    ensures AllFrom([Entry(t.node, t.range)] + InOrder(t.right) + After(c), t.range.start)
  {
    PlugInOrder(c, t);
    var e, l, r := Entry(t.node, t.range), InOrder(t.left), InOrder(t.right);
    Regroup(Before(c), l, [e], r, After(c));
    OrderedAround(Before(c) + l, e, r + After(c));
  }

  lemma DescendOrder(c: Ctx, t: Tree, p: int, d: Ctx)
    requires t.Br? && Ordered(InOrder(Plug(c, t)))
    requires AllBelow(Before(c), p) && AllFrom(After(c), p)
    requires d == if t.range.start < p then Under(c, t.node, t.range, t.prio, false, t.left)
                  else Under(c, t.node, t.range, t.prio, true, t.right)
    ensures AllBelow(Before(d), p) && AllFrom(After(d), p)
  {
    OrderedUnder(c, t);
  }

  lemma DescendStep(m: Marks, c: Ctx, t: Tree, tree: Tree, r: HugeRange, prio: int)
    returns (m': Marks, d: Ctx, u: Tree)
    requires DescendInv(m, c, t, tree, r, prio) && t.Br? && t.prio >= prio
    requires Distinct(tree) && Ordered(InOrder(tree))
    ensures t.node in m && m' == m[t.node := Most(m[t.node], r.len)]
    ensures d == if t.range.start < r.start then Under(c, t.node, t.range, t.prio, false, t.left)
                 else Under(c, t.node, t.range, t.prio, true, t.right)
    ensures u == if t.range.start < r.start then t.right else t.left
    ensures DescendInv(m', d, u, tree, r, prio)
  {
    m' := m[t.node := Most(m[t.node], r.len)];
    if t.range.start < r.start {
      d, u := Under(c, t.node, t.range, t.prio, false, t.left), t.right;
    } else {
      d, u := Under(c, t.node, t.range, t.prio, true, t.right), t.left;
    }
    DescendOrder(c, t, r.start, d);
    PlugNodes(c, t);
    CtxExactFrame(m, m', c, Most(Longest(t), r.len));
    ExactFrame(m, m', t.left);
    ExactFrame(m, m', t.right);
  }

  /** What the fields of the next node on the way down hold. */
  lemma DescendFields(h: Store, c: Ctx, t: Tree, tree: Tree)
    requires Linked(h, tree, null) && Plug(c, t) == tree
    ensures t.Br? ==> t.node in h && h[t.node] == Links(t.range, t.prio, Root(t.left), Root(t.right), Owner(c))
    ensures c.Under? ==> c.node in h
  {
    PlugLinked(h, c, t, null);
  }

  // ----- hanging a new node -----

  /** `r` neither overlaps nor touches any range of `s`. */
  ghost predicate Apart(s: seq<Entry>, r: HugeRange) {
    forall i :: 0 <= i < |s| ==> s[i].range.End() < r.start || r.End() < s[i].range.start
  }

  lemma OrderedInsert(a: seq<Entry>, e: Entry, b: seq<Entry>)
    requires Ordered(a + b) && e.range.len > 0 && Apart(a + b, e.range)
    requires AllBelow(a, e.range.start) && AllFrom(b, e.range.start)
    ensures Ordered(a + [e] + b)
  {
    var s, t := a + b, a + [e] + b;
    forall i | 0 <= i < |a| ensures a[i].range.End() < e.range.start {
      assert s[i] == a[i];
    }
    forall i | 0 <= i < |b| ensures e.range.End() < b[i].range.start {
      assert s[|a| + i] == b[i];
    }
    forall i, j | 0 <= i < j < |t| ensures RangesOf(t)[i].End() < RangesOf(t)[j].start {
      if i < |a| && j > |a| {
        assert RangesOf(s)[i] == t[i].range && RangesOf(s)[j - 1] == t[j].range;
      } else if j < |a| {
        assert RangesOf(s)[i] == t[i].range && RangesOf(s)[j] == t[j].range;
      } else if i > |a| {
        assert RangesOf(s)[i - 1] == t[i].range && RangesOf(s)[j - 1] == t[j].range;
      }
    }
    forall i | 0 <= i < |t| ensures RangesOf(t)[i].len > 0 {
      if i < |a| {
        assert RangesOf(s)[i] == t[i].range;
      } else if i > |a| {
        assert RangesOf(s)[i - 1] == t[i].range;
      }
    }
  }

  /** The tree after `n` is hung at the hole of `c` with children `l` and `g`. */
  ghost function Grown(c: Ctx, n: Node, r: HugeRange, prio: int, l: Tree, g: Tree): Tree {
    Plug(c, Br(n, r, prio, l, g))
  }

  /** The fields after `*link = n; n->parent_ = parent; n->left_ = n->right_ = nullptr`. */
  lemma LinkNew(h: Store, c: Ctx, t: Tree, tree: Tree, n: Node, r: HugeRange, prio: int) returns (h': Store)
    requires Linked(h, tree, null) && Distinct(tree) && Plug(c, t) == tree && n in h && n !in Nodes(tree)
    ensures c.Under? ==> c.node in h
    ensures h' == HangFields(h, c, n, r, prio)
    ensures CtxLinked(h', c, n, null) && Linked(h', t, Owner(c)) && CtxDistinct(c) && Distinct(t)
    ensures CtxNodes(c) !! Nodes(t) && n !in CtxNodes(c) && n !in Nodes(t)
    ensures SameOutside(h, h', OwnerSet(c) + {n})
  {
    PlugLinked(h, c, t, null);
    PlugNodes(c, t);
    var h1 := h;
    if c.Under? {
      h1 := SetChildLinked(h, c, Root(t), n, null);
    }
    LinkedFrame(h, h1, t, Owner(c));
    h' := h1[n := Links(r, prio, null, null, Owner(c))];
    LinkedFrame(h1, h', t, Owner(c));
    CtxFrame(h1, h', c, n, null);
  }

  lemma GrownSets(c: Ctx, t: Tree, n: Node, r: HugeRange, prio: int, l: Tree, g: Tree)
    requires Distinct(Plug(c, t)) && n !in Nodes(Plug(c, t))
    requires Distinct(l) && Distinct(g) && Nodes(l) !! Nodes(g) && Nodes(l) + Nodes(g) == Nodes(t)
    ensures Distinct(Grown(c, n, r, prio, l, g))
    ensures Nodes(Grown(c, n, r, prio, l, g)) == Nodes(Plug(c, t)) + {n}
  {
    PlugNodes(c, t);
    PlugNodes(c, Br(n, r, prio, l, g));
  }

  lemma GrownHeap(c: Ctx, t: Tree, n: Node, r: HugeRange, prio: int, l: Tree, g: Tree)
    requires Heap(Plug(c, t)) && (c.Under? ==> c.prio >= prio)
    requires Heap(l) && Heap(g) && (l.Br? ==> l.prio <= prio) && (g.Br? ==> g.prio <= prio)
    ensures Heap(Grown(c, n, r, prio, l, g))
  {
    assert Heap(Br(n, r, prio, l, g));
    hide Heap, Plug;
    PlugHeap(c, t);
    PlugHeap(c, Br(n, r, prio, l, g));
  }

  lemma GrownInOrder(c: Ctx, t: Tree, n: Node, r: HugeRange, prio: int, l: Tree, g: Tree) returns (a: seq<Entry>, b: seq<Entry>)
    requires InOrder(l) + InOrder(g) == InOrder(t)
    ensures a == Before(c) + InOrder(l) && b == InOrder(g) + After(c)
    ensures InOrder(Grown(c, n, r, prio, l, g)) == a + [Entry(n, r)] + b && InOrder(Plug(c, t)) == a + b
  {
    a, b := Before(c) + InOrder(l), InOrder(g) + After(c);
    PlugInOrder(c, t);
    PlugInOrder(c, Br(n, r, prio, l, g));
    Regroup(Before(c), InOrder(l), [Entry(n, r)], InOrder(g), After(c));
    RegroupPair(Before(c), InOrder(l), InOrder(g), After(c));
  }

  lemma RegroupPair(a: seq<Entry>, b: seq<Entry>, d: seq<Entry>, e: seq<Entry>)
    ensures a + (b + d) + e == (a + b) + (d + e)
  {
  }

  /** Address order of the grown tree. */
  lemma GrownOrder(c: Ctx, t: Tree, n: Node, r: HugeRange, prio: int, l: Tree, g: Tree)
    requires Ordered(InOrder(Plug(c, t))) && r.len > 0 && Apart(InOrder(Plug(c, t)), r)
    requires AllBelow(Before(c), r.start) && AllFrom(After(c), r.start)
    requires InOrder(l) + InOrder(g) == InOrder(t) && AllBelow(InOrder(l), r.start) && AllFrom(InOrder(g), r.start)
    ensures Ordered(InOrder(Grown(c, n, r, prio, l, g)))
  {
    var a, b := GrownInOrder(c, t, n, r, prio, l, g);
    OrderedInsert(a, Entry(n, r), b);
  }

  // ----- repairing the maxima after a split -----

  lemma {:induction false} AppendSides(m: Marks, inner: Ctx, outer: Ctx)
    ensures SidesExact(m, Append(inner, outer)) <==> SidesExact(m, inner) && SidesExact(m, outer)
    decreases inner
  {
    if inner.Under? { AppendSides(m, inner.up, outer); }
  }

  /** The way from a hole with nothing in it up to the root. */
  lemma ClimbFromHole(h: Store, c: Ctx)
    requires Linked(h, Plug(c, Leaf), null) && Distinct(Plug(c, Leaf))
    ensures CtxLinked(h, c, null, null) && CtxDistinct(c) && ClimbLinked(h, Climb(c))
    ensures forall x: Node :: x in Climb(c) <==> x in Path(c)
    ensures c.Under? ==> Climb(c) != [] && Climb(c)[0] == c.node
  {
    PlugLinked(h, c, Leaf, null);
    PlugNodes(c, Leaf);
    CtxClimb(h, c, null);
    ClimbNodes(c);
  }

  /** The maxima on the way up from the hole of `c` have been repaired. */
  ghost predicate Climbed(h: Store, m: Marks, m': Marks, c: Ctx) {
    FixedBelow(h, m', Climb(c), |Climb(c)|) && MarksKept(m, m', Climb(c))
  }

  lemma {:induction false} FixedGivesLocal(h: Store, m: Marks, c: Ctx)
    requires FixedBelow(h, m, Climb(c), |Climb(c)|)
    ensures LocalAlong(h, m, c)
    decreases c
  {
    if c.Under? {
      assert Climb(c)[0] == c.node;
      forall i | 0 <= i < |Climb(c.up)| ensures LocalExact(h, m, Climb(c.up)[i]) {
        assert Climb(c.up)[i] == Climb(c)[i + 1];
      }
      FixedGivesLocal(h, m, c.up);
    }
  }

  lemma {:induction false} LocalInner(h: Store, m: Marks, inner: Ctx, outer: Ctx)
    requires LocalAlong(h, m, Append(inner, outer))
    ensures LocalAlong(h, m, inner)
    decreases inner
  {
    if inner.Under? { LocalInner(h, m, inner.up, outer); }
  }

  /** After repairing the way up from the end of `less`, that half is exact. */
  lemma FixedHalf(h: Store, m: Marks, m': Marks, half: Ctx, outer: Ctx, n: Node)
    requires outer.Under? && outer.node == n
    requires CtxDistinct(Append(half, outer)) && CtxDistinct(half)
    requires CtxLinked(h, half, null, n) && SidesExact(m, half)
    requires FixedBelow(h, m', Climb(Append(half, outer)), |Climb(Append(half, outer))|)
    requires MarksKept(m, m', Climb(Append(half, outer))) && CtxNodes(half) !! Path(outer)
    ensures Exact(m', Plug(half, Leaf))
  {
    var k := Append(half, outer);
    AppendNodes(half, outer);
    ClimbNodes(k);
    FixedGivesLocal(h, m', k);
    LocalInner(h, m', half, outer);
    SidesFrame(m, m', half);
    LocalGivesExact(h, m', half, null, n, 0);
    PlugExact(m', half, Leaf);
  }

  /** A tree is exact once every side along a repaired climb is. */
  lemma FixedWhole(h: Store, m: Marks, m': Marks, c: Ctx)
    requires CtxLinked(h, c, null, null) && CtxDistinct(c) && SidesExact(m, c)
    requires FixedBelow(h, m', Climb(c), |Climb(c)|) && MarksKept(m, m', Climb(c))
    ensures Exact(m', Plug(c, Leaf))
  {
    ClimbNodes(c);
    FixedGivesLocal(h, m', c);
    SidesFrame(m, m', c);
    LocalGivesExact(h, m', c, null, null, 0);
    PlugExact(m', c, Leaf);
  }

  // ----- inserting a new node -----

  /** The fields and maxima just before a new node `n` for `r` is hung at the hole of `c`. */
  ghost predicate ReadyToHang(h: Store, m: Marks, c: Ctx, t: Tree, tree: Tree, n: Node, r: HugeRange, prio: int) {
    Linked(h, tree, null) && Distinct(tree) && Heap(tree) && Ordered(InOrder(tree)) &&
    n in h && n !in Nodes(tree) && r.len > 0 && Apart(InOrder(tree), r) &&
    DescendInv(m, c, t, tree, r, prio) && (t.Br? ==> t.prio < prio)
  }

  /** Nothing to split: the new node is a leaf. */
  lemma HangLeaf(h: Store, m: Marks, c: Ctx, tree: Tree, n: Node, r: HugeRange, prio: int)
    returns (h': Store, m': Marks)
    requires ReadyToHang(h, m, c, Leaf, tree, n, r, prio)
    ensures c.Under? ==> c.node in h
    ensures h' == HangFields(h, c, n, r, prio)
    ensures m' == m[n := r.len]
    ensures TreapInv(h', m', Grown(c, n, r, prio, Leaf, Leaf))
  {
    h' := LinkNew(h, c, Leaf, tree, n, r, prio);
    m' := m[n := r.len];
    var b := Br(n, r, prio, Leaf, Leaf);
    PlugLinked(h', c, b, null);
    GrownSets(c, Leaf, n, r, prio, Leaf, Leaf);
    GrownHeap(c, Leaf, n, r, prio, Leaf, Leaf);
    assert InOrder(Leaf) + InOrder(Leaf) == InOrder(Leaf);
    GrownOrder(c, Leaf, n, r, prio, Leaf, Leaf);
    CtxExactFrame(m, m', c, r.len);
    PlugExact(m', c, b);
  }

  /** Something to split: once `n` is hung, splitting can start. */
  lemma HangBranch(h: Store, m: Marks, c: Ctx, t: Tree, tree: Tree, n: Node, r: HugeRange, prio: int)
    returns (h': Store, m': Marks)
    requires ReadyToHang(h, m, c, t, tree, n, r, prio) && t.Br?
    ensures c.Under? ==> c.node in h
    ensures h' == HangFields(h, c, n, r, prio)
    ensures m' == m[n := r.len]
    ensures SplitInv(m', h', h', n, Top, Top, t, t, r.start) && SameOutside(h, h', OwnerSet(c) + {n})
    ensures Ordered(InOrder(t)) && CtxLinked(h', c, n, null) && SidesExact(m', c)
  {
    h' := LinkNew(h, c, t, tree, n, r, prio);
    m' := m[n := r.len];
    ExactFrame(m, m', t);
    PlugHeap(c, t);
    OrderBelow(c, t);
    CtxExactFrame(m, m', c, Most(Longest(t), r.len));
    CtxExactSides(m', c, Most(Longest(t), r.len));
    StartSplit(m', h', n, t, r.start, Owner(c));
    hide *;
  }

  /** Nothing has been split yet. */
  lemma StartSplit(m: Marks, h: Store, n: Node, t: Tree, p: int, owner: Node?)
    requires t.Br? && n in h && n !in Nodes(t) && Distinct(t) && Heap(t) && Linked(h, t, owner) && Exact(m, t)
    ensures SplitInv(m, h, h, n, Top, Top, t, t, p)
  {
    assert Before(Top) + InOrder(t) + After(Top) == InOrder(t);
  }

  lemma OrderBelow(c: Ctx, t: Tree)
    requires Ordered(InOrder(Plug(c, t)))
    ensures Ordered(InOrder(t))
  {
    PlugInOrder(c, t);
    OrderedSlice(Before(c), InOrder(t), After(c));
  }

  lemma OrderedSlice(a: seq<Entry>, b: seq<Entry>, d: seq<Entry>)
    requires Ordered(a + b + d)
    ensures Ordered(b)
  {
    assert RangesOf(b) == RangesOf(a + b + d)[|a|..|a| + |b|];
  }

  /** The tree once `t` has been split below `n`. */
  ghost function Parted(c: Ctx, n: Node, r: HugeRange, prio: int, less: Ctx, more: Ctx): Tree {
    Grown(c, n, r, prio, Plug(less, Leaf), Plug(more, Leaf))
  }

  /** The two halves of a finished split, as trees. */
  lemma Halves(m: Marks, h0: Store, h: Store, n: Node, less: Ctx, more: Ctx, t: Tree, p: int)
    requires SplitDone(m, h0, h, n, less, more, t, p)
    ensures var l, g := Plug(less, Leaf), Plug(more, Leaf);
            && Linked(h, l, n) && Linked(h, g, n) && Root(l) == Outermost(less) && Root(g) == Outermost(more)
            && Distinct(l) && Distinct(g) && Nodes(l) == CtxNodes(less) && Nodes(g) == CtxNodes(more)
            && Heap(l) && Heap(g) && (l.Br? ==> l.prio <= t.prio) && (g.Br? ==> g.prio <= t.prio)
  {
    PlugLinked(h, less, Leaf, n);
    PlugLinked(h, more, Leaf, n);
    PlugRoot(less, Leaf);
    PlugRoot(more, Leaf);
    PlugNodes(less, Leaf);
    PlugNodes(more, Leaf);
    PlugHeap(less, Leaf);
    PlugHeap(more, Leaf);
    PlugPrio(less, Leaf, t.prio);
    PlugPrio(more, Leaf, t.prio);
  }

  lemma HalvesOrder(less: Ctx, more: Ctx, t: Tree, p: int)
    requires SplitOrder(less, more, Leaf, t, p)
    ensures InOrder(Plug(less, Leaf)) == Before(less) && InOrder(Plug(more, Leaf)) == After(more)
    ensures InOrder(Plug(less, Leaf)) + InOrder(Plug(more, Leaf)) == InOrder(t)
  {
    assert InOrder(Leaf) == [] && After(less) == [] && Before(more) == [] && Before(less) + InOrder(Leaf) + After(more) == InOrder(t);
    hide *;
    PlugInOrder(less, Leaf);
    PlugInOrder(more, Leaf);
    EmptyMiddle(Before(less), After(more));
  }

  lemma EmptyMiddle(a: seq<Entry>, b: seq<Entry>)
    ensures a + [] + [] == a && [] + [] + b == b && a + [] + b == a + b
  {
  }

  /** All but the maxima of the treap after a split. */
  lemma PartedShape(h: Store, m: Marks, m1: Marks, h0: Store, h': Store, c: Ctx, t: Tree, tree: Tree,
                    n: Node, r: HugeRange, prio: int, less: Ctx, more: Ctx)
    requires ReadyToHang(h, m, c, t, tree, n, r, prio) && t.Br?
    requires CtxLinked(h0, c, n, null) && n in h0 && h0[n] == Links(r, prio, null, null, Owner(c))
    requires SplitDone(m1, h0, h', n, less, more, t, r.start)
    ensures Linked(h', Parted(c, n, r, prio, less, more), null)
    ensures Distinct(Parted(c, n, r, prio, less, more)) && Heap(Parted(c, n, r, prio, less, more))
    ensures Ordered(InOrder(Parted(c, n, r, prio, less, more)))
  {
    var l, g := Plug(less, Leaf), Plug(more, Leaf);
    Halves(m1, h0, h', n, less, more, t, r.start);
    HalvesOrder(less, more, t, r.start);
    PlugNodes(c, t);
    CtxFrame(h0, h', c, n, null);
    PlugLinked(h', c, Br(n, r, prio, l, g), null);
    GrownSets(c, t, n, r, prio, l, g);
    GrownHeap(c, t, n, r, prio, l, g);
    GrownOrder(c, t, n, r, prio, l, g);
  }

  /** The climbs from the ends of the two halves. */
  ghost function LessClimb(c: Ctx, n: Node, r: HugeRange, prio: int, less: Ctx, more: Ctx): Ctx {
    Append(less, Under(c, n, r, prio, true, Plug(more, Leaf)))
  }

  ghost function MoreClimb(c: Ctx, n: Node, r: HugeRange, prio: int, less: Ctx, more: Ctx): Ctx {
    Append(more, Under(c, n, r, prio, false, Plug(less, Leaf)))
  }

  lemma ClimbsMeet(c: Ctx, n: Node, r: HugeRange, prio: int, less: Ctx, more: Ctx)
    ensures Plug(LessClimb(c, n, r, prio, less, more), Leaf) == Parted(c, n, r, prio, less, more)
    ensures Plug(MoreClimb(c, n, r, prio, less, more), Leaf) == Parted(c, n, r, prio, less, more)
    ensures Owner(LessClimb(c, n, r, prio, less, more)) == OwnerOr(less, n)
    ensures Owner(MoreClimb(c, n, r, prio, less, more)) == OwnerOr(more, n)
  {
    PlugAppend(less, Under(c, n, r, prio, true, Plug(more, Leaf)), Leaf);
    PlugAppend(more, Under(c, n, r, prio, false, Plug(less, Leaf)), Leaf);
  }

  /** The parts of a parted tree share no node. */
  lemma PartsDisjoint(c: Ctx, n: Node, r: HugeRange, prio: int, less: Ctx, more: Ctx)
    requires Distinct(Parted(c, n, r, prio, less, more))
    ensures CtxDistinct(c) && CtxDistinct(less) && CtxDistinct(more)
    ensures n !in CtxNodes(c) && n !in CtxNodes(less) && n !in CtxNodes(more)
    ensures CtxNodes(c) !! CtxNodes(less) && CtxNodes(c) !! CtxNodes(more) && CtxNodes(less) !! CtxNodes(more)
    ensures Nodes(Plug(less, Leaf)) == CtxNodes(less) && Nodes(Plug(more, Leaf)) == CtxNodes(more)
  {
    PlugNodes(c, Br(n, r, prio, Plug(less, Leaf), Plug(more, Leaf)));
    PlugNodes(less, Leaf);
    PlugNodes(more, Leaf);
  }

  /** Repairing the climb from the lower half makes that half exact and spoils no side elsewhere. */
  lemma LessFixed(h: Store, m: Marks, m': Marks, c: Ctx, n: Node, r: HugeRange, prio: int, less: Ctx, more: Ctx)
    requires Linked(h, Parted(c, n, r, prio, less, more), null) && Distinct(Parted(c, n, r, prio, less, more))
    requires SidesExact(m, less) && SidesExact(m, more) && SidesExact(m, c)
    requires Climbed(h, m, m', LessClimb(c, n, r, prio, less, more))
    ensures Exact(m', Plug(less, Leaf)) && SidesExact(m', more) && SidesExact(m', c)
  {
    var outer := Under(c, n, r, prio, true, Plug(more, Leaf));
    var k := LessClimb(c, n, r, prio, less, more);
    PartsDisjoint(c, n, r, prio, less, more);
    ClimbsMeet(c, n, r, prio, less, more);
    ClimbFromHole(h, k);
    AppendNodes(less, outer);
    PathInCtx(less);
    PathInCtx(c);
    PathInCtx(more);
    PlugLinked(h, c, Br(n, r, prio, Plug(less, Leaf), Plug(more, Leaf)), null);
    PlugLinked(h, less, Leaf, n);
    FixedHalf(h, m, m', less, outer, n);
    SidesFrame(m, m', more);
    SidesFrame(m, m', c);
  }

  /** Repairing the climb from the upper half then makes the whole tree exact. */
  lemma MoreFixed(h: Store, m: Marks, m': Marks, c: Ctx, n: Node, r: HugeRange, prio: int, less: Ctx, more: Ctx)
    requires Linked(h, Parted(c, n, r, prio, less, more), null) && Distinct(Parted(c, n, r, prio, less, more))
    requires Exact(m, Plug(less, Leaf)) && SidesExact(m, more) && SidesExact(m, c)
    requires Climbed(h, m, m', MoreClimb(c, n, r, prio, less, more))
    ensures Exact(m', Parted(c, n, r, prio, less, more))
  {
    var outer := Under(c, n, r, prio, false, Plug(less, Leaf));
    var k := MoreClimb(c, n, r, prio, less, more);
    ClimbsMeet(c, n, r, prio, less, more);
    ClimbFromHole(h, k);
    AppendSides(m, more, outer);
    FixedWhole(h, m, m', k);
  }

  // ----- merging the two children of a removed node -----

  ghost function Both(top: Tree, bot: Tree, botLeft: bool): seq<Entry> {
    if botLeft then InOrder(bot) + InOrder(top) else InOrder(top) + InOrder(bot)
  }

  ghost predicate Hanging(h: Store, t: Tree) {
    t.Br? ==> t.node in h && Linked(h, t, h[t.node].parent)
  }

  ghost predicate MergeSets(c: Ctx, top: Tree, bot: Tree, all: set<Node>) {
    CtxDistinct(c) && Distinct(top) && Distinct(bot) &&
    CtxNodes(c) !! Nodes(top) && CtxNodes(c) !! Nodes(bot) && Nodes(top) !! Nodes(bot) &&
    CtxNodes(c) + Nodes(top) + Nodes(bot) == all
  }

  ghost predicate MergeHeaps(c: Ctx, top: Tree, bot: Tree) {
    CtxHeap(c) && Heap(top) && Heap(bot) &&
    (c.Under? && top.Br? ==> top.prio <= c.prio) && (c.Under? && bot.Br? ==> bot.prio <= c.prio)
  }

  ghost predicate MergeMarks(m: Marks, c: Ctx, top: Tree, bot: Tree) {
    CtxExact(m, c, Most(Longest(top), Longest(bot))) && Exact(m, top) && Exact(m, bot)
  }

  /** Part-way through gluing the treaps `top` and `bot` into the hole of `c`:
      the address order they will have is fixed, and the nodes above already
      record the right maxima. */
  ghost predicate MergeInv(h: Store, m: Marks, c: Ctx, top: Tree, bot: Tree, botLeft: bool,
                           s: seq<Entry>, all: set<Node>)
  {
    CtxLinked(h, c, HolePtr(h, c), null) && Hanging(h, top) && Hanging(h, bot) &&
    MergeSets(c, top, bot, all) && MergeHeaps(c, top, bot) && MergeMarks(m, c, top, bot) &&
    Before(c) + Both(top, bot, botLeft) + After(c) == s
  }

  lemma MergeFields(h: Store, m: Marks, c: Ctx, top: Tree, bot: Tree, botLeft: bool, s: seq<Entry>, all: set<Node>)
    requires MergeInv(h, m, c, top, bot, botLeft, s, all)
    ensures top.Br? ==> top.node in h && h[top.node].prio == top.prio
    ensures bot.Br? ==> bot.node in h && h[bot.node].prio == bot.prio
  {
  }

  /** The root-ier treap is on top. */
  ghost predicate TopFirst(top: Tree, bot: Tree) {
    bot.Br? ==> top.Br? && bot.prio <= top.prio
  }

  lemma MergeSwap(h: Store, m: Marks, c: Ctx, top: Tree, bot: Tree, botLeft: bool, s: seq<Entry>, all: set<Node>)
    requires MergeInv(h, m, c, top, bot, botLeft, s, all)
    ensures MergeInv(h, m, c, bot, top, !botLeft, s, all)
  {
  }

  /** On which side the lower treap belongs. */
  lemma MergeSide(c: Ctx, top: Tree, bot: Tree, botLeft: bool, s: seq<Entry>)
    requires top.Br? && bot.Br? && Ordered(s) && Before(c) + Both(top, bot, botLeft) + After(c) == s
    ensures botLeft <==> bot.range.start < top.range.start
  {
    OrderedSlice(Before(c), Both(top, bot, botLeft), After(c));
    var x, y := if botLeft then bot else top, if botLeft then top else bot;
    var i, j := |InOrder(x.left)|, |InOrder(x)| + |InOrder(y.left)|;
    var q := InOrder(x) + InOrder(y);
    assert q[i] == Entry(x.node, x.range) && q[j] == Entry(y.node, y.range);
    assert RangesOf(q)[i] == x.range && RangesOf(q)[j] == y.range;
  }

  ghost function MergeCtx(c: Ctx, top: Tree, goLeft: bool): Ctx
    requires top.Br?
  {
    Under(c, top.node, top.range, top.prio, goLeft, if goLeft then top.right else top.left)
  }

  ghost function MergeChild(top: Tree, goLeft: bool): Tree
    requires top.Br?
  {
    if goLeft then top.left else top.right
  }

  lemma MergeStepOrder(c: Ctx, top: Tree, bot: Tree, botLeft: bool, s: seq<Entry>)
    requires top.Br? && Before(c) + Both(top, bot, botLeft) + After(c) == s
    ensures var d := MergeCtx(c, top, botLeft);
            Before(d) + Both(MergeChild(top, botLeft), bot, botLeft) + After(d) == s
  {
    var e, l, r, b := [Entry(top.node, top.range)], InOrder(top.left), InOrder(top.right), InOrder(bot);
    if botLeft {
      MergeRegroup(Before(c), b, l, e, r, After(c));
    } else {
      MergeRegroup(Before(c), l, e, r, b, After(c));
    }
  }

  lemma MergeRegroup(p: seq<Entry>, a: seq<Entry>, b: seq<Entry>, d: seq<Entry>, e: seq<Entry>, q: seq<Entry>)
    ensures p + (a + (b + d + e)) + q == p + (a + b) + (d + e + q)
    ensures p + ((a + b + d) + e) + q == (p + (a + b)) + (d + e) + q
  {
  }

  lemma MergeStepSets(c: Ctx, top: Tree, bot: Tree, goLeft: bool, all: set<Node>)
    requires top.Br? && MergeSets(c, top, bot, all) && MergeHeaps(c, top, bot) && TopFirst(top, bot)
    ensures MergeSets(MergeCtx(c, top, goLeft), MergeChild(top, goLeft), bot, all)
    ensures MergeHeaps(MergeCtx(c, top, goLeft), MergeChild(top, goLeft), bot)
  {
  }

  lemma MergeStepMarks(m: Marks, c: Ctx, top: Tree, bot: Tree, goLeft: bool, all: set<Node>) returns (m': Marks)
    requires top.Br? && bot.Br? && MergeSets(c, top, bot, all) && MergeMarks(m, c, top, bot)
    ensures top.node in m && bot.node in m && m' == m[top.node := Most(m[top.node], m[bot.node])]
    ensures MergeMarks(m', MergeCtx(c, top, goLeft), MergeChild(top, goLeft), bot)
  {
    m' := m[top.node := Most(m[top.node], m[bot.node])];
    CtxExactFrame(m, m', c, Most(Longest(top), Longest(bot)));
    ExactFrame(m, m', top.left);
    ExactFrame(m, m', top.right);
    ExactFrame(m, m', bot);
  }

  /** `*link = top; top->parent_ = parent`, where the slot is the hole of `c`. */
  ghost function FillSlot(h: Store, c: Ctx, x: Node): Store
    requires x in h && (c.Under? ==> c.node in h)
  {
    SetParent(if c.Top? then h else SetChild(h, c.node, c.goLeft, x), x, Owner(c))
  }

  lemma FillSlotLinked(h: Store, c: Ctx, t: Tree) returns (h': Store)
    requires t.Br? && Hanging(h, t) && CtxLinked(h, c, HolePtr(h, c), null)
    requires CtxDistinct(c) && Distinct(t) && CtxNodes(c) !! Nodes(t)
    ensures (c.Under? ==> c.node in h) && h' == FillSlot(h, c, t.node)
    ensures CtxLinked(h', c, t.node, null) && Linked(h', t, Owner(c))
    ensures SameOutside(h, h', OwnerSet(c) + {t.node})
  {
    var h1 := h;
    if c.Under? {
      h1 := SetChildLinked(h, c, HolePtr(h, c), t.node, null);
    }
    LinkedFrame(h, h1, t, h[t.node].parent);
    h' := SetParentLinked(h1, t, h[t.node].parent, Owner(c));
    CtxFrame(h1, h', c, t.node, null);
  }

  lemma MergeStep(h: Store, m: Marks, c: Ctx, top: Tree, bot: Tree, botLeft: bool, s: seq<Entry>, all: set<Node>)
    returns (h': Store, m': Marks)
    requires MergeInv(h, m, c, top, bot, botLeft, s, all) && TopFirst(top, bot) && bot.Br? && Ordered(s)
    ensures (c.Under? ==> c.node in h) && top.node in h && h' == FillSlot(h, c, top.node)
    ensures top.node in m && bot.node in m && m' == m[top.node := Most(m[top.node], m[bot.node])]
    ensures bot.node in h && (botLeft <==> bot.range.start < top.range.start)
    ensures h'[top.node].range == top.range && h'[bot.node].range == bot.range
    ensures MergeInv(h', m', MergeCtx(c, top, botLeft), MergeChild(top, botLeft), bot, botLeft, s, all)
    ensures h'[top.node].left == Root(top.left) && h'[top.node].right == Root(top.right)
    ensures SameOutside(h, h', all)
  {
    MergeSide(c, top, bot, botLeft, s);
    h' := FillSlotLinked(h, c, top);
    m' := MergeStepMarks(m, c, top, bot, botLeft, all);
    MergeStepSets(c, top, bot, botLeft, all);
    MergeStepOrder(c, top, bot, botLeft, s);
    LinkedFrame(h, h', bot, h[bot.node].parent);
  }

  /** `*link = top; if (top) top->parent_ = parent` after the last turn. */
  ghost function CloseSlot(h: Store, c: Ctx, top: Tree): Store
    requires (top.Br? ==> top.node in h) && (c.Under? ==> c.node in h)
  {
    if top.Br? then FillSlot(h, c, top.node)
    else if c.Top? then h
    else SetChild(h, c.node, c.goLeft, null)
  }

  lemma CloseSlotLinked(h: Store, c: Ctx, top: Tree) returns (h': Store)
    requires Hanging(h, top) && CtxLinked(h, c, HolePtr(h, c), null)
    requires CtxDistinct(c) && Distinct(top) && CtxNodes(c) !! Nodes(top)
    ensures (top.Br? ==> top.node in h) && (c.Under? ==> c.node in h) && h' == CloseSlot(h, c, top)
    ensures Linked(h', Plug(c, top), null) && SameOutside(h, h', CtxNodes(c) + Nodes(top))
  {
    if top.Br? {
      h' := FillSlotLinked(h, c, top);
    } else if c.Top? {
      h' := h;
    } else {
      h' := SetChildLinked(h, c, HolePtr(h, c), null, null);
    }
    PlugLinked(h', c, top, null);
  }

  lemma MergeDone(h: Store, m: Marks, c: Ctx, top: Tree, botLeft: bool, s: seq<Entry>, all: set<Node>)
    returns (h': Store)
    requires MergeInv(h, m, c, top, Leaf, botLeft, s, all) && Ordered(s)
    ensures (top.Br? ==> top.node in h) && (c.Under? ==> c.node in h) && h' == CloseSlot(h, c, top)
    ensures TreapInv(h', m, Plug(c, top)) && InOrder(Plug(c, top)) == s && Nodes(Plug(c, top)) == all
    ensures SameOutside(h, h', all)
  {
    h' := CloseSlotLinked(h, c, top);
    BothLeaf(top, botLeft);
    hide Plug, InOrder, Before, After, Both;
    PlugNodes(c, top);
    PlugHeap(c, top);
    PlugExact(m, c, top);
    PlugInOrder(c, top);
  }

  lemma BothLeaf(top: Tree, botLeft: bool)
    ensures Both(top, Leaf, botLeft) == InOrder(top)
  {
  }

  /** What is left in address order when the node at the hole of `c` goes. */
  ghost function Without(c: Ctx, l: Tree, r: Tree): seq<Entry> {
    Before(c) + (InOrder(l) + InOrder(r)) + After(c)
  }

  /** `n` sits at the hole of `c`, with children `l` and `r`. */
  ghost predicate Seated(tree: Tree, c: Ctx, n: Node, g: HugeRange, prio: int, l: Tree, r: Tree) {
    Plug(c, Br(n, g, prio, l, r)) == tree
  }

  lemma RemoveShape(h: Store, m: Marks, tree: Tree, c: Ctx, n: Node, g: HugeRange, prio: int, l: Tree, r: Tree)
    requires TreapInv(h, m, tree) && Seated(tree, c, n, g, prio, l, r)
    ensures CtxLinked(h, c, n, null) && n in h && h[n] == Links(g, prio, Root(l), Root(r), Owner(c))
    ensures Linked(h, l, n) && Linked(h, r, n) && HolePtr(h, c) == if c.Top? then null else n
    ensures MergeSets(c, l, r, Nodes(tree) - {n}) && MergeHeaps(c, l, r)
    ensures n in Nodes(tree) && n !in CtxNodes(c) && n !in Nodes(l) && n !in Nodes(r)
    ensures CtxExact(m, c, Longest(Br(n, g, prio, l, r))) && Exact(m, l) && Exact(m, r)
  {
    var b := Br(n, g, prio, l, r);
    PlugLinked(h, c, b, null);
    PlugNodes(c, b);
    PlugHeap(c, b);
    PlugExact(m, c, b);
  }

  lemma RemoveOrder(tree: Tree, c: Ctx, n: Node, g: HugeRange, prio: int, l: Tree, r: Tree) returns (a: seq<Entry>, b: seq<Entry>)
    requires Seated(tree, c, n, g, prio, l, r) && Ordered(InOrder(tree))
    ensures InOrder(tree) == a + [Entry(n, g)] + b && Without(c, l, r) == a + b && Ordered(a + b)
    ensures AllBelow(a, g.start) && AllFrom(b, g.start)
    ensures c.Under? ==> (c.goLeft <==> c.range.start > g.start)
  {
    a, b := Before(c) + InOrder(l), InOrder(r) + After(c);
    PlugInOrder(c, Br(n, g, prio, l, r));
    Regroup(Before(c), InOrder(l), [Entry(n, g)], InOrder(r), After(c));
    RegroupPair(Before(c), InOrder(l), InOrder(r), After(c));
    OrderedAround(a, Entry(n, g), b);
    OrderedDrop(a, Entry(n, g), b);
    if c.Under? {
      var e := Entry(c.node, c.range);
      if c.goLeft {
        assert After(c)[0] == e && b[|InOrder(r)|] == e;
        OrderedPair(a, Entry(n, g), b, |InOrder(r)|);
      } else {
        assert Before(c)[|Before(c)| - 1] == e && a[|Before(c)| - 1] == e;
      }
    }
  }

  lemma OrderedPair(a: seq<Entry>, e: Entry, b: seq<Entry>, i: nat)
    requires Ordered(a + [e] + b) && i < |b|
    ensures b[i].range.start > e.range.start
  {
    var s := a + [e] + b;
    assert RangesOf(s)[|a|] == e.range && RangesOf(s)[|a| + 1 + i] == b[i].range;
  }

  lemma OrderedDrop(a: seq<Entry>, e: Entry, b: seq<Entry>)
    requires Ordered(a + [e] + b)
    ensures Ordered(a + b)
  {
    var s, t := a + [e] + b, a + b;
    forall i | 0 <= i < |t| ensures RangesOf(t)[i] == RangesOf(s)[if i < |a| then i else i + 1] {
    }
  }

  /** Removing the root: merging starts with nothing above. */
  lemma RemoveTop(h: Store, m: Marks, tree: Tree, n: Node, g: HugeRange, prio: int, l: Tree, r: Tree)
    requires TreapInv(h, m, tree) && Seated(tree, Top, n, g, prio, l, r)
    ensures MergeInv(h, m, Top, l, r, false, Without(Top, l, r), Nodes(tree) - {n})
  {
    RemoveShape(h, m, tree, Top, n, g, prio, l, r);
  }

  /** Removing a node with a parent: once the maxima above ignore it, merging can start. */
  lemma RemoveUnder(h: Store, m: Marks, m1: Marks, m2: Marks, tree: Tree, c: Ctx, n: Node, g: HugeRange, prio: int, l: Tree, r: Tree)
    requires TreapInv(h, m, tree) && Seated(tree, c, n, g, prio, l, r) && c.Under?
    requires m1 == m[n := Most(Longest(l), Longest(r))]
    requires Climbed(h, m1, m2, c)
    ensures MergeInv(h, m2, c, l, r, false, Without(c, l, r), Nodes(tree) - {n})
  {
    RemoveShape(h, m, tree, c, n, g, prio, l, r);
    CtxExactSides(m, c, Longest(Br(n, g, prio, l, r)));
    ClimbNodes(c);
    PathInCtx(c);
    SidesFrame(m, m2, c);
    ExactFrame(m, m2, l);
    ExactFrame(m, m2, r);
    FixedGivesLocal(h, m2, c);
    LocalGivesExact(h, m2, c, n, null, MarkAt(m2, n));
  }

  /** The climb that repairs the maxima above `n`. */
  lemma RemoveClimb(h: Store, m: Marks, tree: Tree, c: Ctx, n: Node, g: HugeRange, prio: int, l: Tree, r: Tree)
    requires TreapInv(h, m, tree) && Seated(tree, c, n, g, prio, l, r) && c.Under?
    ensures ClimbLinked(h, Climb(c)) && Climb(c) != [] && Climb(c)[0] == c.node && n !in Climb(c)
  {
    RemoveShape(h, m, tree, c, n, g, prio, l, r);
    CtxClimb(h, c, n);
    ClimbNodes(c);
    PathInCtx(c);
  }

  // ----- the free list of nodes -----

  function PoolNext(pool: seq<Node>, i: int): Node?
    requires 0 <= i < |pool|
  {
    if i + 1 < |pool| then pool[i + 1] else null
  }

  /** Unused nodes are chained through their left pointers. */
  ghost predicate PoolInv(h: Store, pool: seq<Node>, freelist: Node?) {
    freelist == (if pool == [] then null else pool[0]) &&
    (forall i :: 0 <= i < |pool| ==> pool[i] in h) &&
    (forall i {:trigger PoolNext(pool, i)} :: 0 <= i < |pool| ==> h[pool[i]].left == PoolNext(pool, i)) &&
    (forall i, j :: 0 <= i < j < |pool| ==> pool[i] != pool[j])
  }

  lemma PoolFrame(h: Store, h': Store, pool: seq<Node>, freelist: Node?)
    requires PoolInv(h, pool, freelist)
    requires forall i :: 0 <= i < |pool| && pool[i] in h ==> pool[i] in h' && h'[pool[i]] == h[pool[i]]
    ensures PoolInv(h', pool, freelist)
  {
  }

  lemma PoolPop(h: Store, pool: seq<Node>, freelist: Node?)
    requires PoolInv(h, pool, freelist) && pool != []
    ensures freelist == pool[0] && PoolInv(h, pool[1..], h[pool[0]].left) && pool[0] !in pool[1..]
  {
    var rest := pool[1..];
    assert h[pool[0]].left == PoolNext(pool, 0);
    forall i | 0 <= i < |rest| ensures h[rest[i]].left == PoolNext(rest, i) {
      assert h[pool[i + 1]].left == PoolNext(pool, i + 1);
    }
  }

  lemma PoolPush(h: Store, pool: seq<Node>, freelist: Node?, n: Node) returns (h': Store)
    requires PoolInv(h, pool, freelist) && n in h && n !in pool
    ensures h' == SetChild(h, n, true, freelist) && PoolInv(h', [n] + pool, n)
  {
    h' := SetChild(h, n, true, freelist);
    var more := [n] + pool;
    forall i | 0 <= i < |more| ensures more[i] in h' && h'[more[i]].left == PoolNext(more, i) {
      if i > 0 {
        assert h[pool[i - 1]].left == PoolNext(pool, i - 1);
      }
    }
  }

  ghost function PoolSet(pool: seq<Node>): set<Node> { set x | x in pool }

  /** The free list, the nodes of the treap, and possibly some others own every node. */
  ghost predicate PoolApart(h: Store, tree: Tree, pool: seq<Node>, freelist: Node?, others: set<Node>) {
    PoolInv(h, pool, freelist) && Nodes(tree) !! PoolSet(pool) &&
    others !! Nodes(tree) && others !! PoolSet(pool) && h.Keys == Nodes(tree) + PoolSet(pool) + others
  }

  /** A sound map: a treap and a free list that share no node and own all of them. */
  ghost predicate MapInv(h: Store, m: Marks, tree: Tree, pool: seq<Node>, freelist: Node?) {
    TreapInv(h, m, tree) && PoolApart(h, tree, pool, freelist, {})
  }

  lemma MapParts(h: Store, m: Marks, tree: Tree, pool: seq<Node>, freelist: Node?)
    requires MapInv(h, m, tree, pool, freelist)
    ensures TreapInv(h, m, tree) && PoolApart(h, tree, pool, freelist, {})
  {
  }

  /** Where a new entry went. */
  ghost predicate Inserted(s: seq<Entry>, s': seq<Entry>, e: Entry, a: seq<Entry>, b: seq<Entry>) {
    s == a + b && s' == a + [e] + b && AllBelow(a, e.range.start) && AllFrom(b, e.range.start)
  }

  /** Taking a node off the free list disturbs neither treap nor list. */
  lemma FloatAfterGet(h: Store, m: Marks, tree: Tree, pool: seq<Node>, freelist: Node?, n: Node,
                      h': Store, m': Marks, pool': seq<Node>, freelist': Node?)
    requires MapInv(h, m, tree, pool, freelist) && PoolInv(h', pool', freelist') && m.Keys == h.Keys
    requires if pool == [] then n !in h && pool' == [] else n == pool[0] && pool' == pool[1..]
    requires n !in pool' && h'.Keys == h.Keys + {n} && m'.Keys == h'.Keys
    requires forall x :: x in h && x != n ==> h'[x] == h[x] && m'[x] == m[x]
    ensures TreapInv(h', m', tree) && PoolApart(h', tree, pool', freelist', {n})
  {
    assert pool != [] ==> n in PoolSet(pool);
    LinkedFrame(h, h', tree, null);
    ExactFrame(m, m', tree);
    assert PoolSet(pool) == if pool == [] then {} else PoolSet(pool') + {n};
  }

  /** The nodes of the treap may change freely under a free list that shares none. */
  lemma PoolApartFrame(h: Store, h': Store, tree: Tree, tree': Tree, pool: seq<Node>, freelist: Node?, n: Node)
    requires PoolApart(h, tree, pool, freelist, {n}) && SameOutside(h, h', Nodes(tree) + {n})
    requires Nodes(tree') == Nodes(tree) + {n}
    ensures PoolApart(h', tree', pool, freelist, {})
  {
    forall i | 0 <= i < |pool| ensures pool[i] in h' && h'[pool[i]] == h[pool[i]] {
      assert pool[i] in PoolSet(pool);
    }
    PoolFrame(h, h', pool, freelist);
  }

  /** The fields once `n` hangs at the hole of `c` with no children. */
  ghost function HangFields(h: Store, c: Ctx, n: Node, r: HugeRange, prio: int): Store
    requires c.Under? ==> c.node in h
  {
    (if c.Top? then h else SetChild(h, c.node, c.goLeft, n))[n := Links(r, prio, null, null, Owner(c))]
  }

  lemma HangFieldsAt(h: Store, c: Ctx, n: Node, r: HugeRange, prio: int)
    requires c.Under? ==> c.node in h
    ensures n in HangFields(h, c, n, r, prio) && HangFields(h, c, n, r, prio)[n] == Links(r, prio, null, null, Owner(c))
  {
  }

  /** Hanging a leaf: the map is sound again. */
  lemma GraftLeaf(h: Store, m: Marks, tree: Tree, pool: seq<Node>, freelist: Node?, n: Node, c: Ctx, r: HugeRange, prio: int)
    returns (h': Store, m': Marks, a: seq<Entry>, b: seq<Entry>)
    requires PoolApart(h, tree, pool, freelist, {n}) && ReadyToHang(h, m, c, Leaf, tree, n, r, prio)
    ensures c.Under? ==> c.node in h
    ensures h' == HangFields(h, c, n, r, prio) && m' == m[n := r.len]
    ensures MapInv(h', m', Grown(c, n, r, prio, Leaf, Leaf), pool, freelist)
    ensures Root(Grown(c, n, r, prio, Leaf, Leaf)) == if c.Top? then n else Root(tree)
    ensures Inserted(InOrder(tree), InOrder(Grown(c, n, r, prio, Leaf, Leaf)), Entry(n, r), a, b)
  {
    h', m' := HangLeaf(h, m, c, tree, n, r, prio);
    a, b := LeafOrder(tree, c, n, r, prio);
    GrownSets(c, Leaf, n, r, prio, Leaf, Leaf);
    PlugNodes(c, Leaf);
    assert c.Under? ==> c.node in Nodes(tree);
    PoolApartFrame(h, h', tree, Grown(c, n, r, prio, Leaf, Leaf), pool, freelist, n);
  }

  lemma LeafOrder(tree: Tree, c: Ctx, n: Node, r: HugeRange, prio: int) returns (a: seq<Entry>, b: seq<Entry>)
    requires Plug(c, Leaf) == tree && AllBelow(Before(c), r.start) && AllFrom(After(c), r.start)
    ensures Inserted(InOrder(tree), InOrder(Grown(c, n, r, prio, Leaf, Leaf)), Entry(n, r), a, b)
    ensures Root(Grown(c, n, r, prio, Leaf, Leaf)) == if c.Top? then n else Root(tree)
  {
    assert InOrder(Leaf) + InOrder(Leaf) == InOrder(Leaf);
    a, b := GrownInOrder(c, Leaf, n, r, prio, Leaf, Leaf);
    assert a == Before(c) && b == After(c);
    PlugRoot(c, Leaf);
    PlugRoot(c, Br(n, r, prio, Leaf, Leaf));
  }

  /** `n` hangs at the hole of `c` and `t` is split below it; only maxima are still wrong. */
  ghost predicate Parting(h: Store, tree: Tree, n: Node, c: Ctx, r: HugeRange, prio: int,
                          h': Store, m: Marks, less: Ctx, more: Ctx)
  {
    Linked(h', Parted(c, n, r, prio, less, more), null) && Distinct(Parted(c, n, r, prio, less, more)) &&
    Heap(Parted(c, n, r, prio, less, more)) && Ordered(InOrder(Parted(c, n, r, prio, less, more))) &&
    Nodes(Parted(c, n, r, prio, less, more)) == Nodes(tree) + {n} && SameOutside(h, h', Nodes(tree) + {n}) &&
    SidesExact(m, less) && SidesExact(m, more) && SidesExact(m, c)
  }

  lemma PartingHolds(h: Store, m1: Marks, tree: Tree, n: Node, c: Ctx, t: Tree, r: HugeRange, prio: int,
                     h1: Store, m: Marks, h': Store, less: Ctx, more: Ctx)
    requires ReadyToHang(h, m1, c, t, tree, n, r, prio) && t.Br?
    requires CtxLinked(h1, c, n, null) && n in h1 && h1[n] == Links(r, prio, null, null, Owner(c))
    requires SidesExact(m, c) && SameOutside(h, h1, OwnerSet(c) + {n}) && SplitDone(m, h1, h', n, less, more, t, r.start)
    ensures Parting(h, tree, n, c, r, prio, h', m, less, more)
  {
    PartedShape(h, m1, m, h1, h', c, t, tree, n, r, prio, less, more);
    PartedNodes(h, tree, n, c, t, r, prio, h1, m, h', less, more);
  }

  lemma PartingLinked(h: Store, tree: Tree, n: Node, c: Ctx, r: HugeRange, prio: int,
                      h': Store, m: Marks, less: Ctx, more: Ctx)
    requires Parting(h, tree, n, c, r, prio, h', m, less, more)
    ensures Linked(h', Parted(c, n, r, prio, less, more), null) && Distinct(Parted(c, n, r, prio, less, more))
  {
  }

  lemma PartedNodes(h: Store, tree: Tree, n: Node, c: Ctx, t: Tree, r: HugeRange, prio: int,
                    h1: Store, m: Marks, h': Store, less: Ctx, more: Ctx)
    requires Plug(c, t) == tree && Distinct(tree) && n !in Nodes(tree)
    requires SameOutside(h, h1, OwnerSet(c) + {n}) && SplitDone(m, h1, h', n, less, more, t, r.start)
    ensures Nodes(Parted(c, n, r, prio, less, more)) == Nodes(tree) + {n} && SameOutside(h, h', Nodes(tree) + {n})
  {
    Halves(m, h1, h', n, less, more, t, r.start);
    PlugNodes(c, t);
    GrownSets(c, t, n, r, prio, Plug(less, Leaf), Plug(more, Leaf));
  }

  lemma PartedOrder(tree: Tree, n: Node, c: Ctx, t: Tree, r: HugeRange, prio: int, less: Ctx, more: Ctx)
    returns (a: seq<Entry>, b: seq<Entry>)
    requires Plug(c, t) == tree && SplitOrder(less, more, Leaf, t, r.start)
    requires AllBelow(Before(c), r.start) && AllFrom(After(c), r.start)
    ensures Inserted(InOrder(tree), InOrder(Parted(c, n, r, prio, less, more)), Entry(n, r), a, b)
    ensures Root(Parted(c, n, r, prio, less, more)) == if c.Top? then n else Root(tree)
  {
    HalvesOrder(less, more, t, r.start);
    a, b := GrownInOrder(c, t, n, r, prio, Plug(less, Leaf), Plug(more, Leaf));
    PlugRoot(c, t);
    PlugRoot(c, Br(n, r, prio, Plug(less, Leaf), Plug(more, Leaf)));
  }

  /** With both climbs repaired the map is sound again. */
  lemma GraftDone(h: Store, tree: Tree, pool: seq<Node>, freelist: Node?, n: Node, c: Ctx, r: HugeRange, prio: int,
                  h': Store, m: Marks, less: Ctx, more: Ctx, m1: Marks, m2: Marks)
    requires PoolApart(h, tree, pool, freelist, {n}) && Parting(h, tree, n, c, r, prio, h', m, less, more)
    requires Climbed(h', m, m1, LessClimb(c, n, r, prio, less, more))
    requires Climbed(h', m1, m2, MoreClimb(c, n, r, prio, less, more))
    ensures MapInv(h', m2, Parted(c, n, r, prio, less, more), pool, freelist)
  {
    LessFixed(h', m, m1, c, n, r, prio, less, more);
    MoreFixed(h', m1, m2, c, n, r, prio, less, more);
    PoolApartFrame(h, h', tree, Parted(c, n, r, prio, less, more), pool, freelist, n);
  }

  // ----- taking a node out -----

  /** What the fields around a node about to be removed hold. */
  lemma RemoveFields(h: Store, m: Marks, tree: Tree, c: Ctx, n: Node, g: HugeRange, prio: int, l: Tree, r: Tree)
    requires TreapInv(h, m, tree) && Seated(tree, c, n, g, prio, l, r)
    ensures n in h && h[n] == Links(g, prio, Root(l), Root(r), Owner(c))
    ensures (l.Br? ==> l.node in m && m[l.node] == Longest(l)) && (r.Br? ==> r.node in m && m[r.node] == Longest(r))
    ensures (l.Br? ==> l.node in h) && (r.Br? ==> r.node in h)
    ensures c.Under? ==> c.node in h && c.node != n && h[c.node].range == c.range && (c.goLeft <==> c.range.start > g.start)
    ensures c.Under? ==> Root(tree) == Outermost(c)
    ensures Owner(c) == if c.Top? then null else c.node
    ensures Ordered(Without(c, l, r))
  {
    RemoveShape(h, m, tree, c, n, g, prio, l, r);
    var a, b := RemoveOrder(tree, c, n, g, prio, l, r);
    PlugRoot(c, Br(n, g, prio, l, r));
  }

  /** The free list does not notice a removal. */
  lemma RemovePool(h: Store, h': Store, tree: Tree, out: Tree, pool: seq<Node>, freelist: Node?, n: Node)
    requires PoolApart(h, tree, pool, freelist, {}) && n in Nodes(tree) && Nodes(out) == Nodes(tree) - {n}
    requires SameOutside(h, h', Nodes(out))
    ensures PoolApart(h', out, pool, freelist, {n}) && n in h'
  {
    forall i | 0 <= i < |pool| ensures pool[i] in h' && h'[pool[i]] == h[pool[i]] {
      assert pool[i] in PoolSet(pool);
    }
    PoolFrame(h, h', pool, freelist);
  }

  /** Putting the node on the free list makes the map sound again. */
  lemma RemovePut(h: Store, h': Store, m: Marks, out: Tree, pool: seq<Node>, freelist: Node?, n: Node)
    requires TreapInv(h, m, out) && PoolApart(h, out, pool, freelist, {n})
    requires SameOutside(h, h', {n}) && PoolInv(h', [n] + pool, n)
    ensures MapInv(h', m, out, [n] + pool, n)
  {
    LinkedFrame(h, h', out, null);
    assert PoolSet([n] + pool) == PoolSet(pool) + {n};
  }

  /** Lengths and counts when one entry goes. */
  lemma RemoveCounts(a: seq<Entry>, e: Entry, b: seq<Entry>)
    ensures |a + [e] + b| == |a + b| + 1
    ensures TotalLen(RangesOf(a + [e] + b)) == TotalLen(RangesOf(a + b)) + e.range.len
    ensures Covered(RangesOf(a + [e] + b)) == Covered(RangesOf(a + b)) + Pages(e.range)
  {
    assert RangesOf(a + [e] + b) == RangesOf(a) + ([e.range] + RangesOf(b));
    assert RangesOf(a + b) == RangesOf(a) + RangesOf(b);
    CoveredConcat(RangesOf(a), [e.range] + RangesOf(b));
    CoveredConcat(RangesOf(a), RangesOf(b));
    CoveredConcat([e.range], RangesOf(b));
    assert Covered([e.range]) == Pages(e.range) && TotalLen([e.range]) == e.range.len by {
      assert [e.range][1..] == [];
    }
  }

  lemma SeatedAt(h: Store, m: Marks, tree: Tree, c: Ctx, s: Tree)
    requires TreapInv(h, m, tree) && s.Br? && Plug(c, s) == tree
    ensures Seated(tree, c, s.node, s.range, s.prio, s.left, s.right) && Ordered(InOrder(tree))
    ensures s.node in h && h[s.node].range == s.range && s.node in Nodes(tree)
  {
    RemoveShape(h, m, tree, c, s.node, s.range, s.prio, s.left, s.right);
  }

  lemma PoolParts(h: Store, tree: Tree, pool: seq<Node>, freelist: Node?, n: Node)
    requires PoolApart(h, tree, pool, freelist, {n})
    ensures PoolInv(h, pool, freelist) && n in h && n !in pool && n !in Nodes(tree)
  {
    assert n in pool ==> n in PoolSet(pool);
  }
}

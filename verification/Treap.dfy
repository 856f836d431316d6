/** The shape of the hugepage address map: treap nodes, the value-level trees
    that describe how they are linked, and contexts (a tree with one subtree
    cut out) that describe a walk from the root to some node. */
module Treap {
  import opened Arithmetic
  import opened HugePages

  class Node {
    var range: HugeRange
    var prio: int
    var left: Node?
    var right: Node?
    var parent: Node?
    var longest: nat

    constructor (r: HugeRange, p: int)
      ensures range == r && prio == p
    {
      range, prio, left, right, parent, longest := r, p, null, null, null, 0;
    }
  }

  /** A snapshot of a subtree: which node sits where, with its range and priority. */
  datatype Tree = Leaf | Br(node: Node, range: HugeRange, prio: int, left: Tree, right: Tree)

  /** A tree with a hole. `Under` says the hole is the left (`goLeft`) or right
      child of `node`, whose other child is `side`. */
  datatype Ctx = Top | Under(up: Ctx, node: Node, range: HugeRange, prio: int, goLeft: bool, side: Tree)

  datatype Entry = Entry(node: Node, range: HugeRange)

  function Root(t: Tree): Node? {
    if t.Leaf? then null else t.node
  }

  ghost function Nodes(t: Tree): set<Node> {
    match t
    case Leaf => {}
    case Br(n, _, _, l, r) => {n} + Nodes(l) + Nodes(r)
  }

  ghost function Size(t: Tree): nat {
    match t
    case Leaf => 0
    case Br(_, _, _, l, r) => 1 + Size(l) + Size(r)
  }

  /** No node occurs twice. */
  ghost predicate Distinct(t: Tree) {
    match t
    case Leaf => true
    case Br(n, _, _, l, r) =>
      n !in Nodes(l) && n !in Nodes(r) && Nodes(l) !! Nodes(r) && Distinct(l) && Distinct(r)
  }

  /** Nodes and ranges in address order. */
  ghost function InOrder(t: Tree): seq<Entry> {
    match t
    case Leaf => []
    case Br(n, g, _, l, r) => InOrder(l) + [Entry(n, g)] + InOrder(r)
  }

  /** No child has a higher priority than its parent. */
  ghost predicate Heap(t: Tree) {
    match t
    case Leaf => true
    case Br(_, _, p, l, r) =>
      (l.Br? ==> l.prio <= p) && (r.Br? ==> r.prio <= p) && Heap(l) && Heap(r)
  }

  /** The length of the longest range in the tree. */
  ghost function Longest(t: Tree): nat {
    match t
    case Leaf => 0
    case Br(_, g, _, l, r) => Most(g.len, Most(Longest(l), Longest(r)))
  }

  ghost function Plug(c: Ctx, t: Tree): Tree {
    match c
    case Top => t
    case Under(up, n, g, p, goLeft, s) =>
      Plug(up, if goLeft then Br(n, g, p, t, s) else Br(n, g, p, s, t))
  }

  /** The node the hole hangs off. */
  function Owner(c: Ctx): Node? {
    if c.Top? then null else c.node
  }

  ghost function CtxNodes(c: Ctx): (s: set<Node>)
    ensures c.Under? ==> c.node in s
  {
    match c
    case Top => {}
    case Under(up, n, _, _, _, s) => CtxNodes(up) + {n} + Nodes(s)
  }

  /** The nodes on the way from the root to the hole. */
  ghost function Path(c: Ctx): set<Node> {
    match c
    case Top => {}
    case Under(up, n, _, _, _, _) => Path(up) + {n}
  }

  /** The same nodes, from the hole up to the root. */
  ghost function Climb(c: Ctx): seq<Node> {
    match c
    case Top => []
    case Under(up, n, _, _, _, _) => [n] + Climb(up)
  }

  ghost predicate CtxDistinct(c: Ctx) {
    match c
    case Top => true
    case Under(up, n, _, _, _, s) =>
      n !in Nodes(s) && n !in CtxNodes(up) && Nodes(s) !! CtxNodes(up) && Distinct(s) && CtxDistinct(up)
  }

  ghost function Before(c: Ctx): seq<Entry> {
    match c
    case Top => []
    case Under(up, n, g, _, goLeft, s) =>
      if goLeft then Before(up) else Before(up) + (InOrder(s) + [Entry(n, g)])
  }

  ghost function After(c: Ctx): seq<Entry> {
    match c
    case Top => []
    case Under(up, n, g, _, goLeft, s) =>
      if goLeft then [Entry(n, g)] + InOrder(s) + After(up) else After(up)
  }

  ghost predicate CtxHeap(c: Ctx) {
    match c
    case Top => true
    case Under(up, _, _, p, _, s) =>
      (s.Br? ==> s.prio <= p) && Heap(s) && (up.Under? ==> p <= up.prio) && CtxHeap(up)
  }

  /** Put `inner` in the hole of `outer`. */
  ghost function Append(inner: Ctx, outer: Ctx): Ctx {
    match inner
    case Top => outer
    case Under(up, n, g, p, goLeft, s) => Under(Append(up, outer), n, g, p, goLeft, s)
  }

  // ----- plugging a tree into a context -----

  lemma {:induction false} PlugNodes(c: Ctx, t: Tree)
    ensures Nodes(Plug(c, t)) == CtxNodes(c) + Nodes(t)
    ensures Distinct(Plug(c, t)) <==> CtxDistinct(c) && Distinct(t) && CtxNodes(c) !! Nodes(t)
    decreases c
  {
    match c
    case Top =>
    case Under(up, n, g, p, goLeft, s) =>
      PlugNodes(up, if goLeft then Br(n, g, p, t, s) else Br(n, g, p, s, t));
  }

  lemma {:induction false} PlugInOrder(c: Ctx, t: Tree)
    ensures InOrder(Plug(c, t)) == Before(c) + InOrder(t) + After(c)
    decreases c
  {
    match c
    case Top =>
    case Under(up, n, g, p, goLeft, s) =>
      PlugInOrder(up, if goLeft then Br(n, g, p, t, s) else Br(n, g, p, s, t));
      if goLeft {
        Regroup(Before(up), InOrder(t), [Entry(n, g)], InOrder(s), After(up));
      } else {
        Regroup(Before(up), InOrder(s), [Entry(n, g)], InOrder(t), After(up));
      }
  }

  lemma Regroup(a: seq<Entry>, b: seq<Entry>, x: seq<Entry>, d: seq<Entry>, e: seq<Entry>)
    ensures a + (b + x + d) + e == a + b + (x + d + e)
    ensures a + (b + x + d) + e == a + (b + x) + d + e
    ensures a + (b + x + d) + e == (a + b) + x + (d + e)
    ensures a + (b + x) == (a + b) + x && x + d + e == x + (d + e)
  {
  }

  lemma {:induction false} PlugHeap(c: Ctx, t: Tree)
    ensures Heap(Plug(c, t)) <==>
            CtxHeap(c) && Heap(t) && (c.Under? && t.Br? ==> t.prio <= c.prio)
    decreases c
  {
    match c
    case Top =>
    case Under(up, n, g, p, goLeft, s) =>
      PlugHeap(up, if goLeft then Br(n, g, p, t, s) else Br(n, g, p, s, t));
  }

  lemma {:induction false} PlugAppend(inner: Ctx, outer: Ctx, t: Tree)
    ensures Plug(Append(inner, outer), t) == Plug(outer, Plug(inner, t))
    decreases inner
  {
    match inner
    case Top =>
    case Under(up, n, g, p, goLeft, s) =>
      PlugAppend(up, outer, if goLeft then Br(n, g, p, t, s) else Br(n, g, p, s, t));
  }

  lemma {:induction false} PathInCtx(c: Ctx)
    ensures Path(c) <= CtxNodes(c)
    decreases c
  {
    if c.Under? { PathInCtx(c.up); }
  }

  lemma {:induction false} AppendNodes(inner: Ctx, outer: Ctx)
    ensures CtxNodes(Append(inner, outer)) == CtxNodes(inner) + CtxNodes(outer)
    ensures Path(Append(inner, outer)) == Path(inner) + Path(outer)
    decreases inner
  {
    if inner.Under? { AppendNodes(inner.up, outer); }
  }

  /** Every node of a tree sits in some context. */
  lemma {:induction false} Locate(t: Tree, n: Node) returns (c: Ctx, s: Tree)
    requires n in Nodes(t)
    ensures s.Br? && s.node == n && Plug(c, s) == t
    decreases t
  {
    c, s := LocateUnder(Top, t, n);
  }

  lemma {:induction false} LocateUnder(c0: Ctx, t: Tree, n: Node) returns (c: Ctx, s: Tree)
    requires n in Nodes(t)
    ensures s.Br? && s.node == n && Plug(c, s) == Plug(c0, t)
    decreases t
  {
    if t.node == n {
      c, s := c0, t;
    } else if n in Nodes(t.left) {
      c, s := LocateUnder(Under(c0, t.node, t.range, t.prio, true, t.right), t.left, n);
    } else {
      c, s := LocateUnder(Under(c0, t.node, t.range, t.prio, false, t.left), t.right, n);
    }
  }

  // ----- the tree and the node fields -----

  /** The structural fields of one node. */
  datatype Links = Links(range: HugeRange, prio: int, left: Node?, right: Node?, parent: Node?)

  /** What the structural fields of the nodes hold, and what `longest` holds. */
  type Store = map<Node, Links>
  type Marks = map<Node, nat>

  /** The fields describe exactly the tree `t`, hanging off `p`. */
  ghost predicate Linked(h: Store, t: Tree, p: Node?) {
    match t
    case Leaf => true
    case Br(n, g, q, l, r) =>
      n in h && h[n] == Links(g, q, Root(l), Root(r), p) && Linked(h, l, n) && Linked(h, r, n)
  }

  lemma {:induction false} LinkedFrame(h: Store, h': Store, t: Tree, p: Node?)
    requires Linked(h, t, p)
    requires forall x :: x in Nodes(t) && x in h ==> x in h' && h'[x] == h[x]
    ensures Linked(h', t, p)
    decreases t
  {
    if t.Br? {
      LinkedFrame(h, h', t.left, t.node);
      LinkedFrame(h, h', t.right, t.node);
    }
  }

  /** What a subtree in the hole has for a parent when `c` itself hangs off `p`. */
  function OwnerOr(c: Ctx, p: Node?): Node? {
    if c.Top? then p else c.node
  }

  /** The child pointer at the hole. */
  ghost function HolePtr(h: Store, c: Ctx): Node? {
    if c.Top? || c.node !in h then null else if c.goLeft then h[c.node].left else h[c.node].right
  }

  /** The fields of `c.node`, with `x` in the child slot at the hole. */
  ghost function OwnerLinks(c: Ctx, x: Node?, p: Node?): Links
    requires c.Under?
  {
    if c.goLeft then Links(c.range, c.prio, x, Root(c.side), OwnerOr(c.up, p))
    else Links(c.range, c.prio, Root(c.side), x, OwnerOr(c.up, p))
  }

  /** The fields describe the context, hanging off `p`, with `x` in the slot at the hole. */
  ghost predicate CtxLinked(h: Store, c: Ctx, x: Node?, p: Node?) {
    match c
    case Top => true
    case Under(up, n, _, _, _, s) =>
      n in h && h[n] == OwnerLinks(c, x, p) && Linked(h, s, n) && CtxLinked(h, up, n, p)
  }

  lemma {:induction false} CtxFrame(h: Store, h': Store, c: Ctx, x: Node?, p: Node?)
    requires CtxLinked(h, c, x, p)
    requires forall y :: y in CtxNodes(c) && y in h ==> y in h' && h'[y] == h[y]
    ensures CtxLinked(h', c, x, p)
    decreases c
  {
    if c.Under? {
      LinkedFrame(h, h', c.side, c.node);
      CtxFrame(h, h', c.up, c.node, p);
    }
  }

  lemma {:induction false} PlugLinked(h: Store, c: Ctx, t: Tree, p: Node?)
    ensures Linked(h, Plug(c, t), p) <==> CtxLinked(h, c, Root(t), p) && Linked(h, t, OwnerOr(c, p))
    decreases c
  {
    match c
    case Top =>
    case Under(up, n, g, q, goLeft, s) =>
      PlugLinked(h, up, if goLeft then Br(n, g, q, t, s) else Br(n, g, q, s, t), p);
  }

  ghost function SetChild(h: Store, n: Node, left: bool, x: Node?): Store
    requires n in h
  {
    h[n := if left then h[n].(left := x) else h[n].(right := x)]
  }

  ghost function SetParent(h: Store, n: Node, p: Node?): Store
    requires n in h
  {
    h[n := h[n].(parent := p)]
  }

  /** Only the nodes of `s` have changed, and none has come or gone. */
  ghost predicate SameOutside(h: Store, h': Store, s: set<Node>) {
    h'.Keys == h.Keys && forall x :: x in h && x !in s ==> h'[x] == h[x]
  }

  /** `*link = y` fills the slot at the hole. */
  lemma SetChildLinked(h: Store, c: Ctx, x: Node?, y: Node?, p: Node?) returns (h': Store)
    requires c.Under? && CtxLinked(h, c, x, p) && CtxDistinct(c)
    ensures h' == SetChild(h, c.node, c.goLeft, y)
    ensures CtxLinked(h', c, y, p) && SameOutside(h, h', {c.node})
  {
    h' := SetChild(h, c.node, c.goLeft, y);
    LinkedFrame(h, h', c.side, c.node);
    CtxFrame(h, h', c.up, c.node, p);
  }

  /** `x->parent_ = p` rehangs a subtree. */
  lemma SetParentLinked(h: Store, t: Tree, q: Node?, p: Node?) returns (h': Store)
    requires t.Br? && Linked(h, t, q) && Distinct(t)
    ensures h' == SetParent(h, t.node, p)
    ensures Linked(h', t, p) && SameOutside(h, h', {t.node})
  {
    h' := SetParent(h, t.node, p);
    LinkedFrame(h, h', t.left, t.node);
    LinkedFrame(h, h', t.right, t.node);
  }

  // ----- recorded longest ranges -----

  /** Every node of `t` records the longest range below it. */
  ghost predicate Exact(m: Marks, t: Tree) {
    match t
    case Leaf => true
    case Br(n, _, _, l, r) => n in m && m[n] == Longest(t) && Exact(m, l) && Exact(m, r)
  }

  lemma {:induction false} ExactFrame(m: Marks, m': Marks, t: Tree)
    requires Exact(m, t)
    requires forall x :: x in Nodes(t) && x in m ==> x in m' && m'[x] == m[x]
    ensures Exact(m', t)
    decreases t
  {
    if t.Br? {
      ExactFrame(m, m', t.left);
      ExactFrame(m, m', t.right);
    }
  }

  ghost predicate SidesExact(m: Marks, c: Ctx) {
    match c
    case Top => true
    case Under(up, _, _, _, _, s) => Exact(m, s) && SidesExact(m, up)
  }

  lemma {:induction false} SidesFrame(m: Marks, m': Marks, c: Ctx)
    requires SidesExact(m, c) && CtxDistinct(c)
    requires forall x :: x in CtxNodes(c) && x !in Path(c) && x in m ==> x in m' && m'[x] == m[x]
    ensures SidesExact(m', c)
    decreases c
  {
    if c.Under? {
      PathInCtx(c.up);
      ExactFrame(m, m', c.side);
      SidesFrame(m, m', c.up);
    }
  }

  /** The nodes of the context record what is right when the longest range in the hole is `w`. */
  ghost predicate CtxExact(m: Marks, c: Ctx, w: nat) {
    match c
    case Top => true
    case Under(up, n, g, _, _, s) =>
      var v := Most(g.len, Most(Longest(s), w));
      Exact(m, s) && n in m && m[n] == v && CtxExact(m, up, v)
  }

  lemma {:induction false} CtxExactFrame(m: Marks, m': Marks, c: Ctx, w: nat)
    requires CtxExact(m, c, w)
    requires forall x :: x in CtxNodes(c) && x in m ==> x in m' && m'[x] == m[x]
    ensures CtxExact(m', c, w)
    decreases c
  {
    if c.Under? {
      ExactFrame(m, m', c.side);
      CtxExactFrame(m, m', c.up, Most(c.range.len, Most(Longest(c.side), w)));
    }
  }

  lemma {:induction false} CtxExactSides(m: Marks, c: Ctx, w: nat)
    requires CtxExact(m, c, w)
    ensures SidesExact(m, c)
    decreases c
  {
    if c.Under? { CtxExactSides(m, c.up, Most(c.range.len, Most(Longest(c.side), w))); }
  }

  lemma {:induction false} PlugExact(m: Marks, c: Ctx, t: Tree)
    ensures Exact(m, Plug(c, t)) <==> CtxExact(m, c, Longest(t)) && Exact(m, t)
    decreases c
  {
    match c
    case Top =>
    case Under(up, n, g, q, goLeft, s) =>
      PlugExact(m, up, if goLeft then Br(n, g, q, t, s) else Br(n, g, q, s, t));
  }

  ghost function MarkAt(m: Marks, n: Node?): nat {
    if n == null || n !in m then 0 else m[n]
  }

  /** `n` records the maximum over its own range and its two children. */
  ghost predicate LocalExact(h: Store, m: Marks, n: Node) {
    n in h && n in m && m[n] == Most(h[n].range.len, Most(MarkAt(m, h[n].left), MarkAt(m, h[n].right)))
  }

  ghost predicate LocalAlong(h: Store, m: Marks, c: Ctx) {
    match c
    case Top => true
    case Under(up, n, _, _, _, _) => LocalExact(h, m, n) && LocalAlong(h, m, up)
  }

  lemma {:induction false} LocalGivesExact(h: Store, m: Marks, c: Ctx, x: Node?, p: Node?, w: nat)
    requires CtxLinked(h, c, x, p) && SidesExact(m, c) && w == MarkAt(m, x)
    requires LocalAlong(h, m, c)
    ensures CtxExact(m, c, w)
    decreases c
  {
    if c.Under? {
      assert MarkAt(m, Root(c.side)) == Longest(c.side);
      LocalGivesExact(h, m, c.up, c.node, p, m[c.node]);
    }
  }

  // ----- climbing from a node to the root -----

  lemma {:induction false} ClimbNodes(c: Ctx)
    requires CtxDistinct(c)
    ensures forall x: Node :: x in Climb(c) <==> x in Path(c)
    ensures forall i, j :: 0 <= i < j < |Climb(c)| ==> Climb(c)[i] != Climb(c)[j]
    decreases c
  {
    if c.Under? {
      ClimbNodes(c.up);
      PathInCtx(c.up);
    }
  }

  function NextUp(s: seq<Node>, i: int): Node?
    requires 0 <= i < |s|
  {
    if i + 1 < |s| then s[i + 1] else null
  }

  ghost predicate PointsBack(h: Store, x: Node?, n: Node) {
    x != null ==> x in h && h[x].parent == n
  }

  /** What parent pointers and child pointers say along a climb to the root. */
  ghost predicate ClimbLinked(h: Store, s: seq<Node>) {
    (forall i :: 0 <= i < |s| ==> s[i] in h) &&
    (forall i {:trigger NextUp(s, i)} :: 0 <= i < |s| ==> h[s[i]].parent == NextUp(s, i)) &&
    (forall i :: 0 <= i < |s| ==> PointsBack(h, h[s[i]].left, s[i]) && PointsBack(h, h[s[i]].right, s[i])) &&
    (forall i, j :: 0 <= i < j < |s| ==> s[i] != s[j])
  }

  lemma {:induction false} CtxClimb(h: Store, c: Ctx, x: Node?)
    requires CtxLinked(h, c, x, null) && CtxDistinct(c)
    requires c.Under? ==> PointsBack(h, x, c.node)
    ensures ClimbLinked(h, Climb(c))
    decreases c
  {
    if c.Under? {
      CtxClimb(h, c.up, c.node);
      ClimbNodes(c);
      var s := Climb(c.up);
      assert Climb(c) == [c.node] + s;
      assert c.up.Under? ==> s[0] == c.up.node;
      forall i | 0 <= i < |Climb(c)|
        ensures Climb(c)[i] in h && h[Climb(c)[i]].parent == NextUp(Climb(c), i)
      {
        if i > 0 {
          assert s[i - 1] in h;
          assert h[s[i - 1]].parent == NextUp(s, i - 1);
        }
      }
    }
  }

  /** No node of a climb is its own child, nor the child of one below it. */
  lemma ClimbChildren(h: Store, s: seq<Node>, k: nat)
    requires ClimbLinked(h, s) && k < |s|
    ensures forall i :: 0 <= i <= k ==> h[s[i]].left != s[k] && h[s[i]].right != s[k]
  {
    assert h[s[k]].parent == NextUp(s, k);
  }

  ghost predicate FixedBelow(h: Store, m: Marks, s: seq<Node>, k: int) {
    forall i :: 0 <= i < k && i < |s| ==> LocalExact(h, m, s[i])
  }

  /** Repairing the next node of a climb leaves the ones below it repaired. */
  lemma FixedNext(h: Store, m: Marks, m': Marks, s: seq<Node>, k: nat)
    requires ClimbLinked(h, s) && k < |s| && FixedBelow(h, m, s, k)
    requires m' == m[s[k] := MarkAt(m', s[k])] && LocalExact(h, m', s[k])
    ensures FixedBelow(h, m', s, k + 1)
  {
    ClimbChildren(h, s, k);
    forall i | 0 <= i < k ensures LocalExact(h, m', s[i]) {
      assert LocalExact(h, m, s[i]);
    }
  }

  ghost predicate MarksKept(m: Marks, m': Marks, s: seq<Node>) {
    m'.Keys == m.Keys && forall x :: x in m && x !in s ==> m'[x] == m[x]
  }

  // ----- address order -----

  function RangesOf(s: seq<Entry>): seq<HugeRange> {
    seq(|s|, i requires 0 <= i < |s| => s[i].range)
  }

  ghost predicate AllBelow(s: seq<Entry>, p: int) {
    forall i :: 0 <= i < |s| ==> s[i].range.start < p
  }

  ghost predicate AllFrom(s: seq<Entry>, p: int) {
    forall i :: 0 <= i < |s| ==> s[i].range.start >= p
  }

  /** Priorities along the context are at most `b`. */
  ghost predicate CtxPrioAtMost(c: Ctx, b: int) {
    match c
    case Top => true
    case Under(up, _, _, p, _, _) => p <= b && CtxPrioAtMost(up, b)
  }

  lemma {:induction false} PlugPrio(c: Ctx, t: Tree, b: int)
    requires CtxPrioAtMost(c, b) && (t.Br? ==> t.prio <= b)
    ensures Plug(c, t).Br? ==> Plug(c, t).prio <= b
    decreases c
  {
    if c.Under? {
      PlugPrio(c.up, if c.goLeft then Br(c.node, c.range, c.prio, t, c.side) else Br(c.node, c.range, c.prio, c.side, t), b);
    }
  }

  lemma {:induction false} InOrderNodes(h: Store, t: Tree, p: Node?)
    requires Linked(h, t, p)
    ensures forall i :: 0 <= i < |InOrder(t)| ==>
              InOrder(t)[i].node in Nodes(t) && InOrder(t)[i].node in h &&
              h[InOrder(t)[i].node].range == InOrder(t)[i].range
    decreases t
  {
    if t.Br? {
      InOrderNodes(h, t.left, t.node);
      InOrderNodes(h, t.right, t.node);
    }
  }

  lemma {:induction false} NodeInOrder(t: Tree, n: Node) returns (i: nat)
    requires n in Nodes(t)
    ensures i < |InOrder(t)| && InOrder(t)[i].node == n
    decreases t
  {
    if n == t.node {
      i := |InOrder(t.left)|;
    } else if n in Nodes(t.left) {
      i := NodeInOrder(t.left, n);
    } else {
      var j := NodeInOrder(t.right, n);
      i := |InOrder(t.left)| + 1 + j;
    }
  }

  lemma {:induction false} InOrderLength(t: Tree)
    requires Distinct(t)
    ensures |InOrder(t)| == |Nodes(t)|
    decreases t
  {
    if t.Br? {
      InOrderLength(t.left);
      InOrderLength(t.right);
    }
  }

  /** Ranges in address order, none empty, none touching its neighbour. */
  ghost predicate Ordered(s: seq<Entry>) { Separated(RangesOf(s)) }

  lemma OrderedAround(a: seq<Entry>, e: Entry, b: seq<Entry>)
    requires Ordered(a + [e] + b)
    ensures AllBelow(a, e.range.start) && AllFrom(b, e.range.start)
    ensures Ordered(a) && Ordered(b)
  {
    var s := a + [e] + b;
    var k := |a|;
    assert RangesOf(s)[k] == e.range;
    forall i | 0 <= i < |a| ensures a[i].range.start < e.range.start {
      assert RangesOf(s)[i] == a[i].range;
    }
    forall i | 0 <= i < |b| ensures b[i].range.start >= e.range.start {
      assert RangesOf(s)[k + 1 + i] == b[i].range;
    }
    assert RangesOf(a) == RangesOf(s)[..k];
    assert RangesOf(b) == RangesOf(s)[k + 1..];
  }

  // ----- splitting a treap in two -----

  /** Part-way through splitting `t` at address `p`: `less` and `more` are the
      two treaps built so far, each with a hole, and `u` is what is left. */
  ghost predicate Splitting(less: Ctx, more: Ctx, u: Tree, t: Tree) {
    Distinct(u) && CtxDistinct(less) && CtxDistinct(more) &&
    CtxNodes(less) !! CtxNodes(more) && CtxNodes(less) !! Nodes(u) && CtxNodes(more) !! Nodes(u) &&
    CtxNodes(less) + CtxNodes(more) + Nodes(u) == Nodes(t)
  }

  ghost predicate SplitHeaps(less: Ctx, more: Ctx, u: Tree, b: int) {
    CtxHeap(less) && CtxHeap(more) && Heap(u) &&
    (u.Br? ==> u.prio <= b && (less.Under? ==> u.prio <= less.prio) && (more.Under? ==> u.prio <= more.prio)) &&
    CtxPrioAtMost(less, b) && CtxPrioAtMost(more, b)
  }

  ghost predicate SplitOrder(less: Ctx, more: Ctx, u: Tree, t: Tree, p: int) {
    After(less) == [] && Before(more) == [] &&
    Before(less) + InOrder(u) + After(more) == InOrder(t) &&
    AllBelow(Before(less), p) && AllFrom(After(more), p)
  }

  lemma SplitLessSets(less: Ctx, more: Ctx, u: Tree, t: Tree, b: int, d: Ctx)
    requires u.Br? && Splitting(less, more, u, t) && SplitHeaps(less, more, u, b)
    requires d == Under(less, u.node, u.range, u.prio, false, u.left)
    ensures Splitting(d, more, u.right, t) && SplitHeaps(d, more, u.right, b)
  {
  }

  lemma SplitMoreSets(less: Ctx, more: Ctx, u: Tree, t: Tree, b: int, d: Ctx)
    requires u.Br? && Splitting(less, more, u, t) && SplitHeaps(less, more, u, b)
    requires d == Under(more, u.node, u.range, u.prio, true, u.right)
    ensures Splitting(less, d, u.left, t) && SplitHeaps(less, d, u.left, b)
  {
  }

  lemma SplitLessOrder(less: Ctx, more: Ctx, u: Tree, t: Tree, p: int, d: Ctx)
    requires u.Br? && u.range.start < p && Ordered(InOrder(t)) && SplitOrder(less, more, u, t, p)
    requires d == Under(less, u.node, u.range, u.prio, false, u.left)
    ensures SplitOrder(d, more, u.right, t, p)
  {
    var e := Entry(u.node, u.range);
    var l, r := InOrder(u.left), InOrder(u.right);
    Regroup(Before(less), l, [e], r, After(more));
    OrderedAround(Before(less) + l, e, r + After(more));
  }

  lemma SplitMoreOrder(less: Ctx, more: Ctx, u: Tree, t: Tree, p: int, d: Ctx)
    requires u.Br? && u.range.start >= p && Ordered(InOrder(t)) && SplitOrder(less, more, u, t, p)
    requires d == Under(more, u.node, u.range, u.prio, true, u.right)
    ensures SplitOrder(less, d, u.left, t, p)
  {
    var e := Entry(u.node, u.range);
    var l, r := InOrder(u.left), InOrder(u.right);
    Regroup(Before(less), l, [e], r, After(more));
    OrderedAround(Before(less) + l, e, r + After(more));
  }

  /** The node of a context that is nearest the root. */
  function Outermost(c: Ctx): Node? {
    if c.Top? then null else if c.up.Top? then c.node else Outermost(c.up)
  }

  lemma {:induction false} PlugRoot(c: Ctx, t: Tree)
    ensures c.Under? ==> Root(Plug(c, t)) == Outermost(c)
    decreases c
  {
    if c.Under? {
      PlugRoot(c.up, if c.goLeft then Br(c.node, c.range, c.prio, t, c.side) else Br(c.node, c.range, c.prio, c.side, t));
    }
  }

  /** The fields while `u` is being split under `n`. */
  ghost predicate SplitLinks(h: Store, n: Node, less: Ctx, more: Ctx, u: Tree) {
    n in h && CtxLinked(h, less, HolePtr(h, less), n) && CtxLinked(h, more, HolePtr(h, more), n) &&
    (u.Br? ==> u.node in h && Linked(h, u, h[u.node].parent)) &&
    (less.Under? ==> h[n].left == Outermost(less)) && (more.Under? ==> h[n].right == Outermost(more))
  }

  /** One turn of the splitting loop: `*link = curr; curr->parent_ = lp`, where the
      slot is the hole of `c`, or the `left` slot of `n` when nothing hangs there yet. */
  ghost function HangUnder(h: Store, n: Node, c: Ctx, left: bool, x: Node): Store
    requires n in h && x in h && (c.Under? ==> c.node in h)
  {
    SetParent(if c.Top? then SetChild(h, n, left, x) else SetChild(h, c.node, c.goLeft, x), x, OwnerOr(c, n))
  }

  lemma HangLinked(h: Store, n: Node, c: Ctx, left: bool, u: Tree, goLeft: bool) returns (h': Store, d: Ctx)
    requires n in h && u.Br? && u.node in h && CtxLinked(h, c, HolePtr(h, c), n) && Linked(h, u, h[u.node].parent)
    requires CtxDistinct(c) && Distinct(u) && CtxNodes(c) !! Nodes(u) && n !in CtxNodes(c) && n !in Nodes(u)
    ensures h' == HangUnder(h, n, c, left, u.node)
    ensures d == Under(c, u.node, u.range, u.prio, goLeft, if goLeft then u.right else u.left)
    ensures SameOutside(h, h', OwnerSet(c) + {u.node, n})
    ensures c.Under? ==> h'[n] == h[n]
    ensures c.Top? ==> h'[n] == if left then h[n].(left := u.node) else h[n].(right := u.node)
    ensures CtxLinked(h', d, HolePtr(h', d), n) && Linked(h', u.left, u.node) && Linked(h', u.right, u.node)
  {
    var h1;
    if c.Top? {
      h1 := SetChild(h, n, left, u.node);
    } else {
      h1 := SetChildLinked(h, c, HolePtr(h, c), u.node, n);
    }
    LinkedFrame(h, h1, u, h[u.node].parent);
    h' := SetParentLinked(h1, u, h[u.node].parent, OwnerOr(c, n));
    CtxFrame(h1, h', c, u.node, n);
    d := Under(c, u.node, u.range, u.prio, goLeft, if goLeft then u.right else u.left);
  }

  function OwnerSet(c: Ctx): set<Node> {
    if c.Top? then {} else {c.node}
  }

  lemma SplitLessLinks(h: Store, n: Node, less: Ctx, more: Ctx, u: Tree, t: Tree) returns (h': Store, d: Ctx)
    requires u.Br? && Splitting(less, more, u, t) && SplitLinks(h, n, less, more, u) && n !in Nodes(t)
    ensures h' == HangUnder(h, n, less, true, u.node)
    ensures d == Under(less, u.node, u.range, u.prio, false, u.left)
    ensures SplitLinks(h', n, d, more, u.right)
    ensures SameOutside(h, h', Nodes(t) + {n}) && h'[n] == h[n].(left := h'[n].left)
  {
    h', d := HangLinked(h, n, less, true, u, false);
    CtxFrame(h, h', more, HolePtr(h, more), n);
  }

  lemma SplitMoreLinks(h: Store, n: Node, less: Ctx, more: Ctx, u: Tree, t: Tree) returns (h': Store, d: Ctx)
    requires u.Br? && Splitting(less, more, u, t) && SplitLinks(h, n, less, more, u) && n !in Nodes(t)
    ensures h' == HangUnder(h, n, more, false, u.node)
    ensures d == Under(more, u.node, u.range, u.prio, true, u.right)
    ensures SplitLinks(h', n, less, d, u.left)
    ensures SameOutside(h, h', Nodes(t) + {n}) && h'[n] == h[n].(right := h'[n].right)
  {
    h', d := HangLinked(h, n, more, false, u, true);
    CtxFrame(h, h', less, HolePtr(h, less), n);
  }

  /** Everything that holds part-way through splitting `t` at `p` under `n`,
      starting from the fields `h0`; the recorded maxima `m` are not touched. */
  ghost predicate SplitInv(m: Marks, h0: Store, h: Store, n: Node, less: Ctx, more: Ctx, u: Tree, t: Tree, p: int) {
    t.Br? && n in h0 && n !in Nodes(t) && SameOutside(h0, h, Nodes(t) + {n}) &&
    h[n] == h0[n].(left := h[n].left, right := h[n].right) &&
    (less.Under? ==> !less.goLeft) && (more.Under? ==> more.goLeft) &&
    Splitting(less, more, u, t) && SplitHeaps(less, more, u, t.prio) && SplitOrder(less, more, u, t, p) &&
    SplitLinks(h, n, less, more, u) &&
    SidesExact(m, less) && SidesExact(m, more) && Exact(m, u)
  }

  lemma SplitInvLess(m: Marks, h0: Store, h: Store, n: Node, less: Ctx, more: Ctx, u: Tree, t: Tree, p: int)
    returns (h': Store, d: Ctx)
    requires SplitInv(m, h0, h, n, less, more, u, t, p) && u.Br? && u.range.start < p && Ordered(InOrder(t))
    ensures n in h && u.node in h && (less.Under? ==> less.node in h && !less.goLeft) && h[u.node].range == u.range
    ensures h' == HangUnder(h, n, less, true, u.node)
    ensures d == Under(less, u.node, u.range, u.prio, false, u.left)
    ensures SplitInv(m, h0, h', n, d, more, u.right, t, p)
    ensures h'[u.node].right == Root(u.right)
  {
    h', d := SplitLessLinks(h, n, less, more, u, t);
    SplitLessSets(less, more, u, t, t.prio, d);
    SplitLessOrder(less, more, u, t, p, d);
  }

  lemma SplitInvMore(m: Marks, h0: Store, h: Store, n: Node, less: Ctx, more: Ctx, u: Tree, t: Tree, p: int)
    returns (h': Store, d: Ctx)
    requires SplitInv(m, h0, h, n, less, more, u, t, p) && u.Br? && u.range.start >= p && Ordered(InOrder(t))
    ensures n in h && u.node in h && (more.Under? ==> more.node in h && more.goLeft) && h[u.node].range == u.range
    ensures h' == HangUnder(h, n, more, false, u.node)
    ensures d == Under(more, u.node, u.range, u.prio, true, u.right)
    ensures SplitInv(m, h0, h', n, less, d, u.left, t, p)
    ensures u.node in h && h'[u.node].left == Root(u.left)
  {
    h', d := SplitMoreLinks(h, n, less, more, u, t);
    SplitMoreSets(less, more, u, t, t.prio, d);
    SplitMoreOrder(less, more, u, t, p, d);
  }

  /** `*less = nullptr` or `*more = nullptr` at the end of the split. */
  ghost function ClearSlot(h: Store, n: Node, c: Ctx, left: bool): Store
    requires n in h && (c.Under? ==> c.node in h)
  {
    if c.Top? then SetChild(h, n, left, null) else SetChild(h, c.node, c.goLeft, null)
  }

  /** `t` has been split at `p` into the treaps `less` and `more` below `n`. */
  ghost predicate SplitDone(m: Marks, h0: Store, h: Store, n: Node, less: Ctx, more: Ctx, t: Tree, p: int) {
    t.Br? && n in h0 && SameOutside(h0, h, Nodes(t) + {n}) &&
    h[n] == h0[n].(left := Outermost(less), right := Outermost(more)) &&
    CtxLinked(h, less, null, n) && CtxLinked(h, more, null, n) &&
    Splitting(less, more, Leaf, t) && SplitHeaps(less, more, Leaf, t.prio) && SplitOrder(less, more, Leaf, t, p) &&
    SidesExact(m, less) && SidesExact(m, more)
  }

  lemma SplitInvDone(m: Marks, h0: Store, h: Store, n: Node, less: Ctx, more: Ctx, t: Tree, p: int)
    returns (h1: Store, h2: Store)
    requires SplitInv(m, h0, h, n, less, more, Leaf, t, p)
    ensures n in h && (less.Under? ==> less.node in h && !less.goLeft) && (more.Under? ==> more.node in h && more.goLeft)
    ensures h1 == ClearSlot(h, n, more, false) && h2 == ClearSlot(h1, n, less, true)
    ensures SplitDone(m, h0, h2, n, less, more, t, p)
  {
    if more.Top? {
      h1 := SetChild(h, n, false, null);
    } else {
      h1 := SetChildLinked(h, more, HolePtr(h, more), null, n);
    }
    CtxFrame(h, h1, less, HolePtr(h, less), n);
    if less.Top? {
      h2 := SetChild(h1, n, true, null);
    } else {
      h2 := SetChildLinked(h1, less, HolePtr(h, less), null, n);
    }
    CtxFrame(h1, h2, more, null, n);
  }
}

/** The treap of free hugepage ranges (tcmalloc/huge_address_map.{h,cc}). */
module AddressMap {
  import opened Arithmetic
  import opened HugePages
  import opened Treap
  import opened TreapSteps
  import opened TreapSearch

  class HugeAddressMap {
    var root: Node?
    var usedNodes: nat
    var totalSize: nat
    var freelist: Node?
    var freelistSize: nat
    var totalNodes: nat

    /** What the treap looks like, which nodes wait on the free list, and what
        the fields of all these nodes hold. */
    ghost var tree: Tree
    ghost var pool: seq<Node>
    ghost var links: Store
    ghost var marks: Marks

    static ghost function LinksOf(x: Node): Links
      reads x
    {
      Links(x.range, x.prio, x.left, x.right, x.parent)
    }

    /** `links` and `marks` are what the fields hold. */
    ghost predicate Agree()
      reads this`links, this`marks, links.Keys
    {
      links.Keys == marks.Keys &&
      forall x :: x in links ==> LinksOf(x) == links[x] && x.longest == marks[x]
    }

    /** The address map is sound, but for `totalSize`, which is `extra` too large. */
    ghost predicate Sound(extra: int)
      reads this, links.Keys
    {
      Agree() && root == Root(tree) && MapInv(links, marks, tree, pool, freelist) &&
      usedNodes == |InOrder(tree)| && totalSize == TotalLen(RangesOf(InOrder(tree))) + extra &&
      freelistSize == |pool| && totalNodes == usedNodes + freelistSize
    }

    /** The address map is sound. */
    ghost predicate Valid()
      reads this, links.Keys
    {
      Sound(0)
    }

    /** The free ranges in address order, and their hugepages. */
    ghost function Ranges(): seq<HugeRange>
      reads this
    {
      RangesOf(InOrder(tree))
    }

    ghost function Contents(): set<int>
      reads this
    {
      Covered(Ranges())
    }

    constructor ()
      ensures Valid() && Ranges() == [] && links.Keys == {}
    {
      root, usedNodes, totalSize, freelist, freelistSize, totalNodes := null, 0, 0, null, 0, 0;
      tree, pool, links, marks := Leaf, [], map[], map[];
    }

    lemma KeysAgree()
      requires Agree()
      ensures links.Keys == marks.Keys
    {
    }

    lemma FieldsAgree(x: Node)
      requires Agree() && x in links
      ensures Links(x.range, x.prio, x.left, x.right, x.parent) == links[x]
    {
    }

    // ----- single stores -----

    method StoreChild(n: Node, left: bool, x: Node?)
      requires Agree() && n in links
      modifies this`links, n`left, n`right
      ensures Agree() && links == SetChild(old(links), n, left, x)
    {
      if left { n.left := x; } else { n.right := x; }
      links := SetChild(links, n, left, x);
    }

    method StoreParent(n: Node, p: Node?)
      requires Agree() && n in links
      modifies this`links, n`parent
      ensures Agree() && links == SetParent(old(links), n, p)
    {
      n.parent := p;
      links := SetParent(links, n, p);
    }

    /** `*link = x; x->parent_ = owner`. */
    method Hang(owner: Node, left: bool, x: Node)
      requires Agree() && owner in links && x in links
      modifies this`links, owner`left, owner`right, x`parent
      ensures Agree() && links == SetParent(SetChild(old(links), owner, left, x), x, owner)
    {
      StoreChild(owner, left, x);
      StoreParent(x, owner);
    }

    method StoreRange(n: Node, r: HugeRange)
      requires Agree() && n in links
      modifies this`links, n`range
      ensures Agree() && links == old(links)[n := old(links)[n].(range := r)]
    {
      n.range := r;
      links := links[n := links[n].(range := r)];
    }

    method StorePrio(n: Node, p: int)
      requires Agree() && n in links
      modifies this`links, n`prio
      ensures Agree() && links == old(links)[n := old(links)[n].(prio := p)]
    {
      n.prio := p;
      links := links[n := links[n].(prio := p)];
    }

    method StoreLongest(n: Node, v: nat)
      requires Agree() && n in links
      modifies this`marks, n`longest
      ensures Agree() && marks == old(marks)[n := v]
    {
      n.longest := v;
      marks := marks[n := v];
    }

    // ----- repairing recorded maxima -----

    /** Recompute one node from its children. */
    method FixLongestAt(n: Node)
      requires Agree() && n in links
      requires links[n].left != null ==> links[n].left in links
      requires links[n].right != null ==> links[n].right in links
      requires links[n].left != n && links[n].right != n
      modifies this`marks, n`longest
      ensures Agree() && LocalExact(links, marks, n) && marks == old(marks)[n := marks[n]]
    {
      var l := if n.left == null then 0 else n.left.longest;
      var r := if n.right == null then 0 else n.right.longest;
      StoreLongest(n, Most(n.range.len, Most(l, r)));
    }

    /** Recompute the recorded maxima from `n` up to the root. */
    method FixLongest(n: Node, ghost s: seq<Node>)
      requires Agree() && s != [] && s[0] == n && ClimbLinked(links, s)
      modifies this`marks, links.Keys`longest
      ensures Agree() && FixedBelow(links, marks, s, |s|) && MarksKept(old(marks), marks, s)
    {
      var m: Node? := n;
      ghost var k := 0;
      while m != null
        invariant 0 <= k <= |s| && m == if k < |s| then s[k] else null
        invariant Agree() && FixedBelow(links, marks, s, k) && MarksKept(old(marks), marks, s)
        decreases |s| - k
      {
        ClimbChildren(links, s, k);
        assert links[s[k]].parent == NextUp(s, k);
        ghost var before := marks;
        FixLongestAt(m);
        FixedNext(links, before, marks, s, k);
        m := m.parent;
        k := k + 1;
      }
    }

    // ----- splitting -----

    /** One turn of the splitting loop: `curr` joins the addresses below `p`. */
    method HangLess(n: Node, lp: Node, atTop: bool, curr: Node,
                    ghost h0: Store, ghost less: Ctx, ghost more: Ctx, ghost u: Tree, ghost t: Tree, ghost p: int)
      returns (next: Node?, ghost d: Ctx)
      requires Agree() && SplitInv(marks, h0, links, n, less, more, u, t, p) && Ordered(InOrder(t))
      requires u.Br? && curr == u.node && u.range.start < p && lp == OwnerOr(less, n) && atTop == less.Top?
      modifies this`links, lp`left, lp`right, curr`parent
      ensures Agree() && SplitInv(marks, h0, links, n, d, more, u.right, t, p)
      ensures next == Root(u.right) && d == Under(less, curr, u.range, u.prio, false, u.left)
    {
      hide SplitInv;
      ghost var h;
      h, d := SplitInvLess(marks, h0, links, n, less, more, u, t, p);
      Hang(lp, atTop, curr);
      next := curr.right;
    }

    /** The other turn: `curr` joins the addresses from `p` on. */
    method HangMore(n: Node, mp: Node, atTop: bool, curr: Node,
                    ghost h0: Store, ghost less: Ctx, ghost more: Ctx, ghost u: Tree, ghost t: Tree, ghost p: int)
      returns (next: Node?, ghost d: Ctx)
      requires Agree() && SplitInv(marks, h0, links, n, less, more, u, t, p) && Ordered(InOrder(t))
      requires u.Br? && curr == u.node && u.range.start >= p && mp == OwnerOr(more, n) && atTop == more.Top?
      modifies this`links, mp`left, mp`right, curr`parent
      ensures Agree() && SplitInv(marks, h0, links, n, less, d, u.left, t, p)
      ensures next == Root(u.left) && d == Under(more, curr, u.range, u.prio, true, u.right)
    {
      hide SplitInv;
      ghost var h;
      h, d := SplitInvMore(marks, h0, links, n, less, more, u, t, p);
      Hang(mp, !atTop, curr);
      next := curr.left;
    }

    /** The end of the splitting loop: both holes are closed. */
    method CloseSplit(n: Node, lp: Node, lessEmpty: bool, mp: Node, moreEmpty: bool,
                      ghost h0: Store, ghost less: Ctx, ghost more: Ctx, ghost t: Tree, ghost p: int)
      requires Agree() && SplitInv(marks, h0, links, n, less, more, Leaf, t, p)
      requires lp == OwnerOr(less, n) && mp == OwnerOr(more, n) && lessEmpty == less.Top? && moreEmpty == more.Top?
      modifies this`links, lp`left, lp`right, mp`left, mp`right
      ensures Agree() && SplitDone(marks, h0, links, n, less, more, t, p)
    {
      hide SplitInv, SplitDone;
      ghost var h1, h2 := SplitInvDone(marks, h0, links, n, less, more, t, p);
      StoreChild(mp, !moreEmpty, null);
      StoreChild(lp, lessEmpty, null);
    }

    /** Split the treap `t` at address `p` into the two children of `n`. */
    method SplitTreap(n: Node, top: Node, p: nat, ghost t: Tree)
      returns (lp: Node, mp: Node, ghost less: Ctx, ghost more: Ctx)
      requires Agree() && t.Br? && t.node == top && Ordered(InOrder(t))
      requires SplitInv(marks, links, links, n, Top, Top, t, t, p)
      modifies this`links, links.Keys`left, links.Keys`right, links.Keys`parent
      ensures Agree() && SplitDone(marks, old(links), links, n, less, more, t, p)
      ensures links.Keys == old(links).Keys && SplitOrder(less, more, Leaf, t, p)
      ensures lp == OwnerOr(less, n) && mp == OwnerOr(more, n)
    {
      var curr: Node? := top;
      var lessEmpty, moreEmpty := true, true;
      lp, mp, less, more := n, n, Top, Top;
      ghost var u := t;
      while curr != null
        invariant Agree() && curr == Root(u) && lp == OwnerOr(less, n) && mp == OwnerOr(more, n)
        invariant SplitInv(marks, old(links), links, n, less, more, u, t, p)
        invariant lessEmpty == less.Top? && moreEmpty == more.Top?
        decreases u
      {
        if curr.range.start < p {
          var next, d := HangLess(n, lp, lessEmpty, curr, old(links), less, more, u, t, p);
          lp, lessEmpty, less := curr, false, d;
          curr, u := next, u.right;
        } else {
          var next, d := HangMore(n, mp, moreEmpty, curr, old(links), less, more, u, t, p);
          mp, moreEmpty, more := curr, false, d;
          curr, u := next, u.left;
        }
      }
      CloseSplit(n, lp, lessEmpty, mp, moreEmpty, old(links), less, more, t, p);
    }
  
    // ----- the node free list -----

    /** Placement-new on a node that is already known. */
    method Renew(n: Node, r: HugeRange, prio: int)
      requires Agree() && n in links
      modifies this`links, n`range, n`prio
      ensures Agree() && SameOutside(old(links), links, {n})
      ensures links[n].range == r && links[n].prio == prio
    {
      StoreRange(n, r);
      StorePrio(n, prio);
    }

    /** A node from fresh memory. */
    method Create(r: HugeRange, prio: int) returns (n: Node)
      requires Agree()
      modifies this`links, this`marks
      ensures Agree() && fresh(n) && n !in old(links) && n in links
      ensures links == old(links)[n := links[n]] && marks == old(marks)[n := marks[n]]
      ensures links[n].range == r && links[n].prio == prio
    {
      n := new Node(r, prio);
      links := links[n := LinksOf(n)];
      marks := marks[n := n.longest];
    }

    /** Take a node off the free list, or make one, for a new range. */
    method Get(r: HugeRange, prio: int) returns (n: Node)
      requires Agree() && PoolInv(links, pool, freelist) && freelistSize == |pool|
      modifies this`links, this`marks, this`pool, this`freelist, this`freelistSize, this`usedNodes, this`totalNodes
      modifies links.Keys`range, links.Keys`prio
      ensures Agree() && PoolInv(links, pool, freelist) && freelistSize == |pool|
      ensures if old(pool) == [] then fresh(n) && pool == [] && totalNodes == old(totalNodes) + 1
              else n == old(pool)[0] && pool == old(pool)[1..] && totalNodes == old(totalNodes)
      ensures usedNodes == old(usedNodes) + 1 && n !in pool
      ensures links.Keys == old(links).Keys + {n} && links[n].range == r && links[n].prio == prio
      ensures forall x :: x in old(links) && x != n ==> links[x] == old(links)[x] && marks[x] == old(marks)[x]
    {
      usedNodes := usedNodes + 1;
      if freelistSize == 0 {
        totalNodes := totalNodes + 1;
        n := Create(r, prio);
        PoolFrame(old(links), links, pool, freelist);
      } else {
        PoolPop(links, pool, freelist);
        freelistSize := freelistSize - 1;
        n := freelist;
        freelist := n.left;
        pool := pool[1..];
        Renew(n, r, prio);
        PoolFrame(old(links), links, pool, freelist);
      }
    }

    /** Put a node on the free list. */
    method Put(n: Node)
      requires Agree() && PoolInv(links, pool, freelist) && freelistSize == |pool| && n in links && n !in pool && usedNodes > 0
      modifies this`links, this`pool, this`freelist, this`freelistSize, this`usedNodes, n`left, n`right
      ensures Agree() && PoolInv(links, pool, freelist) && freelistSize == |pool|
      ensures pool == [n] + old(pool) && usedNodes == old(usedNodes) - 1 && freelist == n
      ensures links.Keys == old(links).Keys && SameOutside(old(links), links, {n})
    {
      freelistSize := freelistSize + 1;
      usedNodes := usedNodes - 1;
      ghost var h := PoolPush(links, pool, freelist, n);
      StoreChild(n, true, freelist);
      freelist := n;
      pool := [n] + pool;
    }
  
    // ----- inserting a range that touches no other -----

    /** Walk down to where a node of priority `prio` for `r` belongs. */
    method Descend(r: HugeRange, prio: int) returns (curr: Node?, parent: Node?, left: bool, ghost c: Ctx, ghost t: Tree)
      requires Agree() && root == Root(tree) && TreapInv(links, marks, tree)
      modifies this`marks, links.Keys`longest
      ensures Agree() && marks.Keys == old(marks).Keys
      ensures DescendInv(marks, c, t, tree, r, prio) && (t.Br? ==> t.prio < prio)
      ensures curr == Root(t) && parent == Owner(c) && (c.Under? ==> left == c.goLeft)
    {
      curr, parent, left, c, t := root, null, false, Top, tree;
      DescendStart(marks, tree, r, prio);
      while curr != null && curr.prio >= prio
        invariant Agree() && marks.Keys == old(marks).Keys
        invariant DescendInv(marks, c, t, tree, r, prio)
        invariant curr == Root(t) && parent == Owner(c) && (c.Under? ==> left == c.goLeft)
        decreases t
      {
        DescendFields(links, c, t, tree);
        ghost var m, d, u := DescendStep(marks, c, t, tree, r, prio);
        StoreLongest(curr, Most(curr.longest, r.len));
        parent := curr;
        if curr.range.start < r.start {
          left, curr := false, curr.right;
        } else {
          left, curr := true, curr.left;
        }
        c, t := d, u;
      }
      DescendFields(links, c, t, tree);
    }

    /** `*link = x`, where the slot is a child pointer of `parent` or the root pointer. */
    method StoreLink(parent: Node?, left: bool, x: Node?)
      requires Agree() && (parent != null ==> parent in links)
      modifies this`root, this`links, links.Keys`left, links.Keys`right
      ensures Agree() && root == if parent == null then x else old(root)
      ensures links == if parent == null then old(links) else SetChild(old(links), parent, left, x)
    {
      if parent == null {
        root := x;
      } else {
        StoreChild(parent, left, x);
      }
    }

    /** `*link = n; n->parent_ = parent; n->left_ = n->right_ = nullptr; n->longest_ = len`. */
    method HangNew(n: Node, parent: Node?, left: bool, ghost c: Ctx)
      requires Agree() && n in links && parent == Owner(c) && (c.Under? ==> left == c.goLeft && c.node in links && c.node != n)
      modifies this`root, this`links, this`marks, links.Keys`left, links.Keys`right, links.Keys`parent, links.Keys`longest
      ensures Agree() && root == if c.Top? then n else old(root)
      ensures links == HangFields(old(links), c, n, old(links)[n].range, old(links)[n].prio)
      ensures links.Keys == old(links).Keys && marks == old(marks)[n := old(links)[n].range.len]
    {
      StoreLink(parent, left, n);
      Plant(n, parent, n.range.len);
    }

    method Plant(n: Node, parent: Node?, len: nat)
      requires Agree() && n in links
      modifies this`links, this`marks, n`parent, n`left, n`right, n`longest
      ensures Agree() && links == old(links)[n := old(links)[n].(left := null, right := null, parent := parent)]
      ensures marks == old(marks)[n := len]
    {
      n.parent, n.left, n.right, n.longest := parent, null, null, len;
      links := links[n := links[n].(left := null, right := null, parent := parent)];
      marks := marks[n := len];
    }

    /** Repair the maxima from `x`, which has an empty child slot, up to the root. */
    method FixFrom(x: Node, ghost k: Ctx)
      requires Agree() && Linked(links, Plug(k, Leaf), null) && Distinct(Plug(k, Leaf)) && Owner(k) == x
      modifies this`marks, links.Keys`longest
      ensures Agree() && Climbed(links, old(marks), marks, k)
    {
      ClimbFromHole(links, k);
      FixLongest(x, Climb(k));
    }

    /** Repair the maxima along the two paths torn by a split. */
    method FixBoth(n: Node, lp: Node, mp: Node, r: HugeRange, ghost prio: int, ghost c: Ctx, ghost less: Ctx, ghost more: Ctx)
      returns (ghost m: Marks)
      requires Agree() && lp == OwnerOr(less, n) && mp == OwnerOr(more, n)
      requires Linked(links, Parted(c, n, r, prio, less, more), null) && Distinct(Parted(c, n, r, prio, less, more))
      modifies this`marks, links.Keys`longest
      ensures Agree()
      ensures Climbed(links, old(marks), m, LessClimb(c, n, r, prio, less, more))
      ensures Climbed(links, m, marks, MoreClimb(c, n, r, prio, less, more))
    {
      ClimbsMeet(c, n, r, prio, less, more);
      FixFrom(lp, LessClimb(c, n, r, prio, less, more));
      m := marks;
      FixFrom(mp, MoreClimb(c, n, r, prio, less, more));
    }

    /** The subtree `t` at `curr` is split below the freshly hung `n`, and the
        maxima along the two torn paths are repaired. */
    method SplitBelow(n: Node, curr: Node, r: HugeRange, ghost h: Store, ghost m1: Marks,
                      ghost c: Ctx, ghost t: Tree, ghost prio: int)
      returns (ghost a: seq<Entry>, ghost b: seq<Entry>)
      requires Agree() && PoolApart(h, tree, pool, freelist, {n})
      requires ReadyToHang(h, m1, c, t, tree, n, r, prio) && t.Br? && curr == t.node
      requires Plug(c, t) == tree && AllBelow(Before(c), r.start) && AllFrom(After(c), r.start)
      requires SplitInv(marks, links, links, n, Top, Top, t, t, r.start) && SameOutside(h, links, OwnerSet(c) + {n})
      requires Ordered(InOrder(t)) && CtxLinked(links, c, n, null) && SidesExact(marks, c)
      requires n in links && links[n] == Links(r, prio, null, null, Owner(c))
      modifies this`tree, this`links, this`marks
      modifies links.Keys`left, links.Keys`right, links.Keys`parent, links.Keys`longest
      ensures Agree() && MapInv(links, marks, tree, pool, freelist) && Root(tree) == if c.Top? then n else Root(old(tree))
      ensures Inserted(InOrder(old(tree)), InOrder(tree), Entry(n, r), a, b) && links.Keys == old(links).Keys
    {
      hide *;
      ghost var h1, m := links, marks;
      var lp, mp, less, more := SplitTreap(n, curr, r.start, t);
      PartingHolds(h, m1, tree, n, c, t, r, prio, h1, m, links, less, more);
      PartingLinked(h, tree, n, c, r, prio, links, m, less, more);
      a, b := PartedOrder(tree, n, c, t, r, prio, less, more);
      ghost var m2 := FixBoth(n, lp, mp, r, prio, c, less, more);
      GraftDone(h, tree, pool, freelist, n, c, r, prio, links, m, less, more, m2, marks);
      tree := Parted(c, n, r, prio, less, more);
    }

    /** Hang `n` at the hole of `c` with nothing below it. */
    method HangAtLeaf(n: Node, r: HugeRange, parent: Node?, left: bool, ghost c: Ctx, ghost prio: int)
      returns (ghost a: seq<Entry>, ghost b: seq<Entry>)
      requires Agree() && root == Root(tree) && PoolApart(links, tree, pool, freelist, {n})
      requires n in links && links[n].range == r && links[n].prio == prio
      requires ReadyToHang(links, marks, c, Leaf, tree, n, r, prio)
      requires parent == Owner(c) && (c.Under? ==> left == c.goLeft && c.node in links && c.node != n)
      modifies this`root, this`tree, this`links, this`marks, links.Keys
      ensures Agree() && root == Root(tree) && MapInv(links, marks, tree, pool, freelist)
      ensures Inserted(InOrder(old(tree)), InOrder(tree), Entry(n, r), a, b) && links.Keys == old(links).Keys
    {
      hide *;
      ghost var h, m;
      h, m, a, b := GraftLeaf(links, marks, tree, pool, freelist, n, c, r, prio);
      HangNew(n, parent, left, c);
      tree := Grown(c, n, r, prio, Leaf, Leaf);
    }

    /** Hang `n` at the hole of `c` and split what was there below it. */
    method HangAbove(n: Node, r: HugeRange, curr: Node, parent: Node?, left: bool, ghost c: Ctx, ghost t: Tree, ghost prio: int)
      returns (ghost a: seq<Entry>, ghost b: seq<Entry>)
      requires Agree() && root == Root(tree) && PoolApart(links, tree, pool, freelist, {n})
      requires n in links && links[n].range == r && links[n].prio == prio
      requires ReadyToHang(links, marks, c, t, tree, n, r, prio) && t.Br? && curr == t.node
      requires Plug(c, t) == tree && AllBelow(Before(c), r.start) && AllFrom(After(c), r.start)
      requires parent == Owner(c) && (c.Under? ==> left == c.goLeft && c.node in links && c.node != n)
      modifies this`root, this`tree, this`links, this`marks, links.Keys
      ensures Agree() && root == Root(tree) && MapInv(links, marks, tree, pool, freelist)
      ensures Inserted(InOrder(old(tree)), InOrder(tree), Entry(n, r), a, b) && links.Keys == old(links).Keys
    {
      hide *;
      ghost var h, m1 := links, marks;
      ghost var h', m' := HangBranch(h, m1, c, t, tree, n, r, prio);
      HangNew(n, parent, left, c);
      HangFieldsAt(h, c, n, r, prio);
      a, b := SplitBelow(n, curr, r, h, m1, c, t, prio);
    }

    /** Hang `n`, which holds `r`, where it belongs. */
    method Graft(n: Node, r: HugeRange, prio: int) returns (ghost a: seq<Entry>, ghost b: seq<Entry>)
      requires Agree() && root == Root(tree) && TreapInv(links, marks, tree) && PoolApart(links, tree, pool, freelist, {n})
      requires n in links && links[n].range == r && links[n].prio == prio && r.len > 0 && Apart(InOrder(tree), r)
      modifies this`root, this`tree, this`links, this`marks, links.Keys
      ensures Agree() && root == Root(tree) && MapInv(links, marks, tree, pool, freelist)
      ensures Inserted(InOrder(old(tree)), InOrder(tree), Entry(n, r), a, b) && links.Keys == old(links).Keys
    {
      var curr, parent, left, c, t := Descend(r, prio);
      PlugNodes(c, t);
      if curr == null {
        a, b := HangAtLeaf(n, r, parent, left, c, prio);
      } else {
        a, b := HangAbove(n, r, curr, parent, left, c, t, prio);
      }
    }
  
    // ----- removing a node -----

    /** One turn of the merging loop: `top` takes the slot, and the hole moves to
        the child on the side of `bottom`. */
    method MergeTurn(top: Node, bottom: Node, parent: Node?, left: bool,
                     ghost c: Ctx, ghost tt: Tree, ghost tb: Tree, ghost botLeft: bool, ghost s: seq<Entry>, ghost all: set<Node>)
      returns (next: Node?, goLeft: bool)
      requires Agree() && MergeInv(links, marks, c, tt, tb, botLeft, s, all) && TopFirst(tt, tb) && tb.Br? && Ordered(s)
      requires tt.Br? && top == tt.node && bottom == tb.node && parent == Owner(c) && (c.Under? ==> left == c.goLeft)
      modifies this`root, this`links, this`marks, links.Keys`left, links.Keys`right, links.Keys`parent, links.Keys`longest
      ensures Agree() && SameOutside(old(links), links, all) && goLeft == botLeft
      ensures MergeInv(links, marks, MergeCtx(c, tt, botLeft), MergeChild(tt, botLeft), tb, botLeft, s, all)
      ensures next == Root(MergeChild(tt, botLeft)) && root == if c.Top? then top else old(root)
    {
      hide MergeInv, Ordered, Linked;
      ghost var h, m := MergeStep(links, marks, c, tt, tb, botLeft, s, all);
      StoreLink(parent, left, top);
      StoreParent(top, parent);
      StoreLongest(top, Most(top.longest, bottom.longest));
      assert links == h && marks == m;
      goLeft := bottom.range.start < top.range.start;
      next := if goLeft then top.left else top.right;
    }
  
    /** Put the root-ier of the two treaps on top. */
    method Reorder(t: Node?, b: Node?, ghost c: Ctx, ghost tt: Tree, ghost tb: Tree, ghost botLeft: bool, ghost s: seq<Entry>, ghost all: set<Node>)
      returns (top: Node?, bottom: Node?, ghost tt': Tree, ghost tb': Tree, ghost botLeft': bool)
      requires Agree() && MergeInv(links, marks, c, tt, tb, botLeft, s, all) && t == Root(tt) && b == Root(tb)
      ensures MergeInv(links, marks, c, tt', tb', botLeft', s, all) && TopFirst(tt', tb')
      ensures top == Root(tt') && bottom == Root(tb') && Size(tt') + Size(tb') == Size(tt) + Size(tb)
    {
      hide MergeInv;
      MergeFields(links, marks, c, tt, tb, botLeft, s, all);
      if b != null && (t == null || t.prio < b.prio) {
        MergeSwap(links, marks, c, tt, tb, botLeft, s, all);
        top, bottom, tt', tb', botLeft' := b, t, tb, tt, !botLeft;
      } else {
        top, bottom, tt', tb', botLeft' := t, b, tt, tb, botLeft;
      }
    }

    /** `*link = top; if (top) top->parent_ = parent`. */
    method CloseMerge(top: Node?, parent: Node?, left: bool,
                      ghost c: Ctx, ghost tt: Tree, ghost botLeft: bool, ghost s: seq<Entry>, ghost all: set<Node>)
      requires Agree() && MergeInv(links, marks, c, tt, Leaf, botLeft, s, all) && Ordered(s)
      requires top == Root(tt) && parent == Owner(c) && (c.Under? ==> left == c.goLeft && root == Outermost(c))
      modifies this`root, this`links, links.Keys`left, links.Keys`right, links.Keys`parent
      ensures Agree() && TreapInv(links, marks, Plug(c, tt)) && root == Root(Plug(c, tt))
      ensures InOrder(Plug(c, tt)) == s && Nodes(Plug(c, tt)) == all && SameOutside(old(links), links, all)
    {
      hide MergeInv, Ordered, TreapInv;
      ghost var h := MergeDone(links, marks, c, tt, botLeft, s, all);
      PlugRoot(c, tt);
      StoreLink(parent, left, top);
      if top != null {
        StoreParent(top, parent);
      }
      assert links == h;
    }

    /** Glue two treaps into the slot `(parent, left)`. */
    method MergeTreaps(t: Node?, b: Node?, p: Node?, l: bool, ghost c0: Ctx, ghost t0: Tree, ghost b0: Tree, ghost s: seq<Entry>, ghost all: set<Node>)
      returns (ghost out: Tree)
      requires Agree() && MergeInv(links, marks, c0, t0, b0, false, s, all) && Ordered(s) && t == Root(t0) && b == Root(b0)
      requires p == Owner(c0) && (c0.Under? ==> l == c0.goLeft && root == Outermost(c0))
      modifies this`root, this`links, this`marks, links.Keys`left, links.Keys`right, links.Keys`parent, links.Keys`longest
      ensures Agree() && TreapInv(links, marks, out) && root == Root(out)
      ensures InOrder(out) == s && Nodes(out) == all && SameOutside(old(links), links, all) && links.Keys == old(links).Keys
    {
      hide MergeInv, Ordered, TreapInv;
      var parent, left := p, l;
      ghost var c := c0;
      var top, bottom, tt, tb, botLeft := Reorder(t, b, c, t0, b0, false, s, all);
      while bottom != null
        invariant Agree() && MergeInv(links, marks, c, tt, tb, botLeft, s, all) && TopFirst(tt, tb)
        invariant top == Root(tt) && bottom == Root(tb) && parent == Owner(c)
        invariant c.Under? ==> left == c.goLeft && root == Outermost(c)
        invariant SameOutside(old(links), links, all)
        decreases Size(tt) + Size(tb)
      {
        var next, goLeft := MergeTurn(top, bottom, parent, left, c, tt, tb, botLeft, s, all);
        parent, left := top, goLeft;
        c, tt := MergeCtx(c, tt, botLeft), MergeChild(tt, botLeft);
        top, bottom, tt, tb, botLeft := Reorder(next, bottom, c, tt, tb, botLeft, s, all);
      }
      CloseMerge(top, parent, left, c, tt, botLeft, s, all);
      out := Plug(c, tt);
    }
  
    /** The maxima above `n` are recomputed as if `n` were gone. */
    method Discount(n: Node, ghost c: Ctx, ghost g: HugeRange, ghost prio: int, ghost l: Tree, ghost r: Tree)
      requires Agree() && TreapInv(links, marks, tree) && Seated(tree, c, n, g, prio, l, r) && n in links
      modifies this`marks, links.Keys`longest
      ensures Agree() && MergeInv(links, marks, c, l, r, false, Without(c, l, r), Nodes(tree) - {n})
    {
      hide TreapInv, Seated, MergeInv;
      ghost var m0 := marks;
      RemoveFields(links, marks, tree, c, n, g, prio, l, r);
      var top := if n.left == null then 0 else n.left.longest;
      var bottom := if n.right == null then 0 else n.right.longest;
      if n.parent == null {
        RemoveTop(links, marks, tree, n, g, prio, l, r);
      } else {
        RemoveClimb(links, marks, tree, c, n, g, prio, l, r);
        StoreLongest(n, Most(top, bottom));
        ghost var m1 := marks;
        FixLongest(n.parent, Climb(c));
        RemoveUnder(links, m0, m1, marks, tree, c, n, g, prio, l, r);
      }
    }
  
    /** Cut `n`, which sits at the hole of `c`, out of the treap. */
    method Unlink(n: Node, ghost c: Ctx, ghost g: HugeRange, ghost prio: int, ghost l: Tree, ghost r: Tree)
      requires Agree() && root == Root(tree) && MapInv(links, marks, tree, pool, freelist)
      requires Seated(tree, c, n, g, prio, l, r) && n in Nodes(tree)
      modifies this`root, this`tree, this`links, this`marks, links.Keys`left, links.Keys`right, links.Keys`parent, links.Keys`longest
      ensures Agree() && root == Root(tree) && TreapInv(links, marks, tree) && links.Keys == old(links).Keys
      ensures PoolApart(links, tree, pool, freelist, {n}) && InOrder(tree) == Without(c, l, r)
    {
      hide *;
      MapParts(links, marks, tree, pool, freelist);
      RemoveFields(links, marks, tree, c, n, g, prio, l, r);
      FieldsAgree(n);
      if c.Under? { FieldsAgree(c.node); }
      var top, bottom, parent := n.left, n.right, n.parent;
      Discount(n, c, g, prio, l, r);
      var left := parent != null && parent.range.start > n.range.start;
      ghost var out := MergeTreaps(top, bottom, parent, left, c, l, r, Without(c, l, r), Nodes(tree) - {n});
      RemovePool(old(links), links, tree, out, pool, freelist, n);
      tree := out;
    }

    /** Cut `n` out of the treap and put it on the free list. */
    method Retire(n: Node, ghost c: Ctx, ghost g: HugeRange, ghost prio: int, ghost l: Tree, ghost r: Tree)
      requires Agree() && root == Root(tree) && MapInv(links, marks, tree, pool, freelist)
      requires Seated(tree, c, n, g, prio, l, r) && n in Nodes(tree) && freelistSize == |pool| && usedNodes > 0
      modifies this`root, this`tree, this`links, this`marks, this`pool, this`freelist, this`freelistSize, this`usedNodes
      modifies links.Keys`left, links.Keys`right, links.Keys`parent, links.Keys`longest
      ensures Agree() && root == Root(tree) && MapInv(links, marks, tree, pool, freelist) && links.Keys == old(links).Keys
      ensures InOrder(tree) == Without(c, l, r)
      ensures pool == [n] + old(pool) && freelistSize == |pool| && usedNodes == old(usedNodes) - 1
    {
      hide *;
      Unlink(n, c, g, prio, l, r);
      ghost var h, p, f := links, pool, freelist;
      PoolParts(h, tree, p, f, n);
      Put(n);
      RemovePut(h, links, marks, tree, p, f, n);
    }

    /** Remove `n` from the map. */
    method RemoveNode(n: Node, ghost extra: nat) returns (ghost a: seq<Entry>, ghost b: seq<Entry>)
      requires Sound(extra) && n in Nodes(tree)
      modifies this, links.Keys
      ensures Sound(extra) && InOrder(old(tree)) == a + [Entry(n, old(n.range))] + b && InOrder(tree) == a + b
      ensures links.Keys == old(links).Keys
    {
      hide TreapInv, PoolApart, Seated, Without;
      ghost var c, s := Locate(tree, n);
      SeatedAt(links, marks, tree, c, s);
      a, b := RemoveOrder(tree, c, n, s.range, s.prio, s.left, s.right);
      RemoveCounts(a, Entry(n, s.range), b);
      totalSize := totalSize - n.range.len;
      Retire(n, c, s.range, s.prio, s.left, s.right);
    }

    // ----- searching -----

    /** The leftmost node of the subtree `t`. */
    method Leftmost(x: Node, ghost t: Tree, ghost p: Node?) returns (n: Node)
      requires Agree() && Linked(links, t, p) && t.Br? && x == t.node
      ensures n == InOrder(t)[0].node
    {
      n := x;
      ghost var u, q := t, p;
      while n.left != null
        invariant Linked(links, u, q) && u.Br? && n == u.node && InOrder(u)[0] == InOrder(t)[0]
        decreases u
      {
        u, q := u.left, n;
        n := n.left;
      }
    }

    /** The node with the lowest range. */
    method First() returns (n: Node?)
      requires Agree() && root == Root(tree) && TreapInv(links, marks, tree)
      ensures n == NodeAt(InOrder(tree), 0)
    {
      if root == null {
        n := null;
      } else {
        n := Leftmost(root, tree, null);
      }
    }

    /** Climb from `x`, which sits at the hole of `c`, out of its right turns. */
    method NextAbove(x: Node, ghost c: Ctx) returns (n: Node?)
      requires Agree() && CtxLinked(links, c, x, null) && CtxDistinct(c) && x !in CtxNodes(c)
      requires x in links && x.parent == Owner(c)
      ensures n == NodeAt(After(c), 0)
    {
      n := x.parent;
      var last: Node := x;
      ghost var d := c;
      while n != null
        invariant n == Owner(d) && After(d) == After(c)
        invariant CtxLinked(links, d, last, null) && CtxDistinct(d) && last !in CtxNodes(d)
        decreases d
      {
        ClimbOut(links, d, last);
        if n.left == last { return; }
        last := n;
        n := n.parent;
        d := d.up;
      }
    }

    /** The node of the next higher range. */
    method Next(x: Node, ghost i: nat) returns (n: Node?)
      requires Agree() && TreapInv(links, marks, tree) && i < |InOrder(tree)| && x == InOrder(tree)[i].node
      ensures n == NodeAt(InOrder(tree), i + 1)
    {
      InOrderNodes(links, tree, null);
      ghost var c, s := Locate(tree, x);
      SeatIndex(links, tree, c, s, i);
      PlugLinked(links, c, s, null);
      PlugNodes(c, s);
      if x.right != null {
        n := Leftmost(x.right, s.right, x);
      } else {
        n := NextAbove(x, c);
      }
    }

    /** The last range that starts at or below `p`. */
    method Predecessor(p: nat) returns (n: Node?, ghost i: int)
      requires Agree() && root == Root(tree) && TreapInv(links, marks, tree)
      ensures IsPredecessor(InOrder(tree), p, i) && n == NodeAt(InOrder(tree), i)
    {
      n := root;
      var best: Node? := null;
      ghost var c, t := Top, tree;
      while n != null
        invariant PredInv(c, t, tree, p, best) && n == Root(t)
        decreases t
      {
        DescendFields(links, c, t, tree);
        if n.range.Contains(p) {
          i := PredFound(c, t, tree, p, best);
          return;
        }
        ghost var d, u := PredStep(c, t, tree, p, best);
        if p < n.range.start {
          n := n.left;
        } else {
          best := n;
          n := n.right;
        }
        c, t := d, u;
      }
      i := PredLeaf(c, tree, p, best);
      n := best;
    }

    /** A child to look into, when either could hold a better fit. */
    method PickChild(left: Node?, right: Node?, n: nat, ghost t: Tree) returns (goLeft: bool)
      requires Agree() && t.Br? && Linked(links, t.left, t.node) && Linked(links, t.right, t.node)
      requires Exact(marks, t) && left == Root(t.left) && right == Root(t.right)
      ensures Has(t.left, n) || Has(t.right, n) ==> Has(if goLeft then t.left else t.right, n)
    {
      if left == null || left.longest < n { return false; }
      if right == null || right.longest < n { return true; }
      if left.range.len == right.range.len {
        goLeft := left.longest <= right.longest;
      } else {
        goLeft := left.range.len < right.range.len;
      }
    }

    /** Look for a range of at least `n` hugepages down a single path. The answer is
        tighter than every fitting range above it. */
    method FindFit(n: nat) returns (best: Node?, ghost c: Ctx, ghost s: Tree)
      requires Agree() && root == Root(tree) && TreapInv(links, marks, tree)
      ensures best != null <==> HasLength(Ranges(), n)
      ensures best != null ==> Fit(tree, n, c, s) && best == s.node && best in Nodes(tree) && best.range == s.range
    {
      var curr := root;
      best := null;
      ghost var d, t := Top, tree;
      c, s := Top, Leaf;
      while curr != null && curr.longest >= n
        invariant FindInv(marks, tree, n, d, t, c, s) && Linked(links, t, Owner(d))
        invariant curr == Root(t) && best == Root(s) && (s.Br? ==> best in links && best.range == s.range)
        decreases t
      {
        if curr.range.len >= n {
          if best == null || best.range.len > curr.range.len {
            best := curr;
          }
        }
        var goLeft := PickChild(curr.left, curr.right, n, t);
        curr := if goLeft then curr.left else curr.right;
        d, t, c, s := FindStep(marks, tree, n, d, t, c, s, goLeft);
      }
      assert t.Br? ==> curr.longest == Longest(t);
      HasFit(tree, n);
      if best != null { FitHas(tree, n, c, s); }
    }

    // ----- the consistency check -----

    /** Walk the subtree `t`, comparing every node with its children. */
    method CheckNode(x: Node, ghost t: Tree, ghost p: Node?) returns (ok: bool, nodes: nat, size: nat)
      requires Agree() && Linked(links, t, p) && t.Br? && x == t.node
      requires Heap(t) && Exact(marks, t) && Ordered(InOrder(t))
      ensures ok && nodes == |InOrder(t)| && size == TotalLen(RangesOf(InOrder(t)))
      decreases t
    {
      CheckOrder(t);
      CheckCounts(t);
      ok, nodes, size := true, 1, x.range.len;
      var longest := x.range.len;
      if x.left != null {
        var l: Node := x.left;
        ok := ok && l.range.start < x.range.start && l.range.End() < x.range.start && l.parent == x && l.prio <= x.prio;
        var ok', nodes', size' := CheckNode(l, t.left, x);
        ok, nodes, size := ok && ok', nodes + nodes', size + size';
        if l.longest > longest { longest := l.longest; }
      }
      if x.right != null {
        var r: Node := x.right;
        ok := ok && r.range.start > x.range.start && r.range.start > x.range.End() && r.parent == x && r.prio <= x.prio;
        var ok', nodes', size' := CheckNode(r, t.right, x);
        ok, nodes, size := ok && ok', nodes + nodes', size + size';
        if r.longest > longest { longest := r.longest; }
      }
      assert ok;
      assert longest == Longest(t);
      ok := ok && x.longest == longest;
    }

    /** The map's own consistency check never fails on a valid map. */
    method Check() returns (ok: bool)
      requires Valid()
      ensures ok
    {
      var nodes, size := 0, 0;
      ok := true;
      if root != null {
        ok, nodes, size := CheckNode(root, tree, null);
        ok := ok && root.parent == null;
      }
      ok := ok && nodes == usedNodes && size == totalSize && totalNodes == usedNodes + freelistSize;
    }

    /** The ranges are separated and their lengths add up to the hugepages covered. */
    lemma Exactness()
      requires Valid()
      ensures Separated(Ranges()) && totalSize == |Contents()|
    {
      CoveredCount(Ranges());
    }

    // ----- inserting -----

    /** Replace the range of `n`, which sits at the hole of `c`, by `g`. */
    method WidenAt(n: Node, g: HugeRange, ghost c: Ctx, ghost s: Tree, ghost a: seq<Entry>, ghost b: seq<Entry>)
      requires Agree() && root == Root(tree) && MapInv(links, marks, tree, pool, freelist)
      requires s.Br? && s.node == n && Plug(c, s) == tree && Ordered(InOrder(Widened(c, s, g)))
      modifies this`tree, this`links, this`marks, links.Keys`range, links.Keys`longest
      ensures Agree() && root == Root(tree) && MapInv(links, marks, tree, pool, freelist)
      ensures tree == Widened(c, s, g) && links.Keys == old(links).Keys
    {
      hide *;
      MapParts(links, marks, tree, pool, freelist);
      ghost var h0, m0 := links, marks;
      ghost var h := WidenLinked(links, marks, tree, c, s, g);
      StoreRange(n, g);
      FixLongest(n, Climb(WidenCtx(c, s, g)));
      WidenDone(h0, m0, tree, pool, freelist, c, s, g, links, marks);
      tree := Widened(c, s, g);
    }

    /** Grow the range of `n`, the `i`-th, over the hugepages of `r`. */
    method Widen(n: Node, g: HugeRange, ghost i: nat, ghost r: HugeRange, ghost extra: nat)
      requires Sound(extra) && r.len <= extra && i < |InOrder(tree)| && n == InOrder(tree)[i].node
      requires Ordered(InOrder(tree)[i := Entry(n, g)])
      requires Pages(g) == Pages(InOrder(tree)[i].range) + Pages(r) && g.len == InOrder(tree)[i].range.len + r.len
      modifies this`tree, this`links, this`marks, links.Keys`range, links.Keys`longest
      ensures Sound(extra - r.len) && InOrder(tree) == InOrder(old(tree))[i := Entry(n, g)] && links.Keys == old(links).Keys
      ensures Covered(RangesOf(InOrder(tree))) == Covered(RangesOf(InOrder(old(tree)))) + Pages(r)
    {
      hide Nodes, InOrder, TreapInv, PoolApart, Widened, Ordered, Plug, Before, After, Pages, Covered, TotalLen;
      MapParts(links, marks, tree, pool, freelist);
      ghost var s := InOrder(tree);
      ghost var c, t, a, b := WidenSeat(links, marks, tree, i, g);
      WidenCounts(a, s[i], Entry(n, g), b, r);
      WidenAt(n, g, c, t, a, b);
    }

    /** A new node for `r`, hung where it belongs. */
    method AddNode(r: HugeRange, prio: int) returns (ghost n: Node, ghost a: seq<Entry>, ghost b: seq<Entry>)
      requires Agree() && root == Root(tree) && MapInv(links, marks, tree, pool, freelist) && freelistSize == |pool|
      requires r.len > 0 && Apart(InOrder(tree), r)
      modifies this, links.Keys
      ensures Agree() && root == Root(tree) && MapInv(links, marks, tree, pool, freelist) && freelistSize == |pool|
      ensures Inserted(InOrder(old(tree)), InOrder(tree), Entry(n, r), a, b)
      ensures usedNodes == old(usedNodes) + 1 && totalNodes + old(freelistSize) == old(totalNodes) + freelistSize + 1
      ensures totalSize == old(totalSize)
      ensures fresh(links.Keys - old(links).Keys) && links.Keys >= old(links).Keys
    {
      hide *;
      MapParts(links, marks, tree, pool, freelist);
      FloatParts(links, tree, pool, freelist);
      KeysAgree();
      var x := Get(r, prio);
      FloatAfterGet(old(links), old(marks), tree, old(pool), old(freelist), x, links, marks, pool, freelist);
      a, b := Graft(x, r, prio);
      n := x;
    }

    /** Add a node of random priority for a range that touches no other. */
    method InsertNew(r: HugeRange)
      requires Sound(r.len) && r.len > 0 && Apart(InOrder(tree), r)
      modifies this, links.Keys
      ensures Sound(0) && fresh(links.Keys - old(links).Keys) && links.Keys >= old(links).Keys
      ensures Covered(RangesOf(InOrder(tree))) == Covered(RangesOf(InOrder(old(tree)))) + Pages(r)
    {
      hide MapInv, InOrder, Pages, Covered, TotalLen, Apart;
      var prio: int := *;
      ghost var n, a, b := AddNode(r, prio);
      RemoveCounts(a, Entry(n, r), b);
    }

    /** Glue `r` to its neighbours `b` below and `a` above (the `i`-th and the next). */
    method Merge(b: Node?, r: HugeRange, a: Node?, ghost i: int)
      requires Sound(r.len) && r.len > 0 && Between(InOrder(tree), i, r) && (b != null || a != null)
      requires if b == null then i >= 0 ==> !InOrder(tree)[i].range.Precedes(r)
               else i >= 0 && b == InOrder(tree)[i].node && InOrder(tree)[i].range.Precedes(r)
      requires if a == null then i + 1 < |InOrder(tree)| ==> !r.Precedes(InOrder(tree)[i + 1].range)
               else i + 1 < |InOrder(tree)| && a == InOrder(tree)[i + 1].node && r.Precedes(InOrder(tree)[i + 1].range)
      modifies this, links.Keys
      ensures Sound(0) && links.Keys == old(links).Keys
      ensures Covered(RangesOf(InOrder(tree))) == Covered(RangesOf(InOrder(old(tree)))) + Pages(r)
    {
      hide Nodes, InOrder, PoolApart, Ordered, Pages, Covered, TotalLen, Linked, Distinct, Heap, Exact;
      InOrderNodes(links, tree, null);
      ghost var s := InOrder(tree);
      if a == null {
        ghost var _ := GrowBefore(s, i, r);
        Widen(b, Join(b.range, r), i, r, r.len);
      } else if b == null {
        ghost var _ := GrowAfter(s, i, r);
        Widen(a, Join(r, a.range), i + 1, r, r.len);
      } else {
        MergeThree(b, r, a, i);
      }
    }

    method MergeThree(b: Node, r: HugeRange, a: Node, ghost i: nat)
      requires Sound(r.len) && r.len > 0 && Between(InOrder(tree), i, r) && i + 1 < |InOrder(tree)|
      requires b == InOrder(tree)[i].node && InOrder(tree)[i].range.Precedes(r)
      requires a == InOrder(tree)[i + 1].node && r.Precedes(InOrder(tree)[i + 1].range)
      modifies this, links.Keys
      ensures Sound(0) && links.Keys == old(links).Keys
      ensures Covered(RangesOf(InOrder(tree))) == Covered(RangesOf(InOrder(old(tree)))) + Pages(r)
    {
      hide Nodes, InOrder, PoolApart, Ordered, Pages, Covered, TotalLen, Linked, Distinct, Heap, Exact;
      InOrderNodes(links, tree, null);
      ghost var s := InOrder(tree);
      ghost var e := s[i + 1];
      var partial := Join(r, a.range);
      var full := Join(b.range, partial);
      totalSize := totalSize + a.range.len;
      ghost var x, y := RemoveNode(a, r.len + a.range.len);
      DropSecond(old(links), old(tree), i + 1, x, y, e);
      ghost var g, f := GrowAcross(s, i, r, InOrder(tree));
      Widen(b, full, i, f, f.len);
      RemoveCounts(x, e, y);
    }

    /** The ranges just below and just above the start of `r`. */
    method Neighbours(r: HugeRange) returns (before: Node?, after: Node?, ghost i: int)
      requires Agree() && root == Root(tree) && TreapInv(links, marks, tree)
      requires r.len > 0 && Covered(RangesOf(InOrder(tree))) !! Pages(r)
      ensures Between(InOrder(tree), i, r) && before == NodeAt(InOrder(tree), i) && after == NodeAt(InOrder(tree), i + 1)
      ensures before != null ==> before.range == InOrder(tree)[i].range
      ensures after != null ==> after.range == InOrder(tree)[i + 1].range
    {
      hide Nodes, InOrder, Ordered, Pages, Covered, Linked, Distinct, Heap, Exact;
      before, i := Predecessor(r.start);
      InOrderNodes(links, tree, null);
      if before != null {
        after := Next(before, i);
      } else {
        after := First();
      }
      BetweenNeighbours(InOrder(tree), i, r);
    }

    /** Put `r` into the map, glued to its neighbours where it touches them. */
    method Place(r: HugeRange)
      requires Sound(r.len) && r.len > 0 && Contents() !! Pages(r)
      modifies this, links.Keys
      ensures Valid() && Contents() == old(Contents()) + Pages(r)
      ensures fresh(links.Keys - old(links).Keys) && links.Keys >= old(links).Keys
    {
      hide Nodes, InOrder, PoolApart, Ordered, Pages, Covered, TotalLen, Linked, Distinct, Heap, Exact;
      var before, after, i := Neighbours(r);
      if before != null && before.range.Precedes(r) {
        if after != null && r.Precedes(after.range) {
          Merge(before, r, after, i);
        } else {
          Merge(before, r, null, i);
        }
      } else if after != null && r.Precedes(after.range) {
        Merge(null, r, after, i);
      } else {
        BetweenApart(InOrder(tree), i, r);
        InsertNew(r);
      }
    }

    /** Add the hugepages of `r`, none of which is in the map. */
    method Insert(r: HugeRange)
      requires Valid() && r.len > 0 && Contents() !! Pages(r)
      modifies this, links.Keys
      ensures Valid() && Contents() == old(Contents()) + Pages(r) && totalSize == old(totalSize) + r.len
      ensures fresh(links.Keys - old(links).Keys) && links.Keys >= old(links).Keys
    {
      hide MapInv, InOrder, Pages, Covered, TotalLen;
      Exactness();
      PagesCount(r);
      totalSize := totalSize + r.len;
      Place(r);
      Exactness();
    }

    /** `n` holds one of the ranges of the map. */
    ghost predicate Holds(n: Node)
      reads this
    {
      n in Nodes(tree) && n in links
    }

    /** A range of at least `n` hugepages, if there is one. */
    method Find(n: nat) returns (best: Node?)
      requires Valid()
      ensures best != null <==> HasLength(Ranges(), n)
      ensures best != null ==> Holds(best) && best.range.len >= n
    {
      hide Nodes, InOrder, PoolApart, Ordered, Pages, Covered, TotalLen, Linked, Distinct, Heap, Exact, Plug;
      ghost var c, s;
      best, c, s := FindFit(n);
      if best != null { FitLinked(links, tree, n, c, s); }
    }

    /** A map that holds hugepages has a range. */
    lemma NonEmpty()
      requires Valid() && totalSize > 0
      ensures HasLength(Ranges(), 1)
    {
      Exactness();
      assert Ranges()[0].len > 0;
    }

    /** What is in one range is in the map. */
    lemma Holding(n: Node)
      requires Valid() && Holds(n)
      ensures 0 < n.range.len <= totalSize && Pages(n.range) <= Contents()
    {
      hide Nodes, InOrder, PoolApart, Pages, Covered, TotalLen, Linked, Distinct, Heap, Exact, Plug;
      var i := NodeInOrder(tree, n);
      InOrderNodes(links, tree, null);
      var s := InOrder(tree);
      UpdateSplit(s, i, s[i]);
      RemoveCounts(s[..i], s[i], s[i + 1..]);
      assert RangesOf(s)[i] == s[i].range;
    }

    /** Take a whole range out of the map. */
    method Remove(n: Node)
      requires Valid() && Holds(n)
      modifies this, links.Keys
      ensures Valid() && links.Keys == old(links).Keys
      ensures Pages(old(n.range)) <= old(Contents()) && Contents() == old(Contents()) - Pages(old(n.range))
      ensures old(n.range).len > 0 && totalSize == old(totalSize) - old(n.range).len
    {
      hide Nodes, InOrder, PoolApart, Ordered, Pages, Covered, TotalLen, Linked, Distinct, Heap, Exact;
      ghost var e := Entry(n, n.range);
      ghost var a, b := RemoveNode(n, 0);
      RemoveCounts(a, e, b);
      RemovedApart(a, e, b);
    }
  }
}

/** Deletion: what splicing a node out leaves behind, and one step of the walk back up. */
module AvlShrink {
  import opened AvlTree
  import opened AvlRotate

  /** The subtree `t` in the hole is sound but one lower than the balances of the path say. */
  ghost predicate Sunk(c: Path, t: Tree)
    reads Nodes(t), PNodes(c)
  {
    WellFormed(t, PParent(c, null)) && Fits(c, TRoot(t), Height(t) + 1)
  }

  lemma SunkAt(c: Path, t: Tree, q: Node)
    requires Down(t) && Up(t, q) && Bal(t) && q == PParent(c, null) && Fits(c, TRoot(t), Height(t) + 1)
    ensures Sunk(c, t)
  {
  }

  /** The subtree around the hole, one step up. */
  ghost function Around(c: Path, t: Tree): Tree
    requires c != Top
  {
    if c.InL? then Bin(t, c.n, c.r) else Bin(c.l, c.n, t)
  }

  /** The height the path expects one step up from a hole of height `h`. */
  ghost function HeightAround(c: Path, h: nat): nat
    requires c != Top
  {
    1 + Max(h, Height(if c.InL? then c.r else c.l))
  }

  /** The subtree one step up is again sound; `done` says whether it has the height the path expects, or one less. */
  ghost predicate Settled(c: Path, t: Tree, u: Tree, w: Node, done: bool)
    requires c != Top
    reads Nodes(u)
  {
    w == TRoot(u) && SameNodes(Around(c, t), u) && WellFormed(u, PParent(c.up, null))
    && HeightAround(c, Height(t) + 1) == if done then Height(u) else Height(u) + 1
  }

  /** The left subtree of `y` has shrunk by one. */
  method SettleLeft(y: Node, ghost c: Path, ghost t: Tree) returns (w: Node, done: bool, ghost u: Tree)
    requires c.InL? && c.n == y && Sunk(c, t) && Distinct(Around(c, t))
    modifies Nodes(Around(c, t))`left, Nodes(Around(c, t))`right, Nodes(Around(c, t))`parent
    modifies Nodes(Around(c, t))`balance
    ensures Settled(c, t, u, w, done)
  {
    ghost var b := Around(c, t);
    y.balance := y.balance + 1;
    w, u := y, b;
    if y.balance == 1 {
      done := true;
    } else if y.balance == 2 {
      w, done, u := ShrinkRightHigh(y, b);
    } else {
      done := false;
    }
  }

  /** The right subtree of `y` has shrunk by one. */
  method SettleRight(y: Node, ghost c: Path, ghost t: Tree) returns (w: Node, done: bool, ghost u: Tree)
    requires c.InR? && c.n == y && Sunk(c, t) && Distinct(Around(c, t))
    modifies Nodes(Around(c, t))`left, Nodes(Around(c, t))`right, Nodes(Around(c, t))`parent
    modifies Nodes(Around(c, t))`balance
    ensures Settled(c, t, u, w, done)
  {
    ghost var b := Around(c, t);
    y.balance := y.balance - 1;
    w, u := y, b;
    if y.balance == -1 {
      done := true;
    } else if y.balance == -2 {
      w, done, u := ShrinkLeftHigh(y, b);
    } else {
      done := false;
    }
  }

  lemma OneUpNodes(c: Path, t: Tree)
    requires c != Top && Distinct(Plug(c, t))
    ensures Plug(c, t) == Plug(c.up, Around(c, t))
    ensures Distinct(Around(c, t)) && PDistinct(c.up) && Nodes(Around(c, t)) !! PNodes(c.up)
    ensures Nodes(Around(c, t)) + PNodes(c.up) == Nodes(Plug(c, t)) && c.n in Nodes(Around(c, t))
    ensures if c.up == Top then TRoot(Plug(c, t)) == c.n else c.up.n in PNodes(c.up)
    ensures c.up.InR? ==> TRoot(c.up.l) != c.n
  {
    PlugNodes(c.up, Around(c, t));
    PlugRoot(c.up, Around(c, t), Around(c, t));
    if c.up.InR? && c.up.l.Bin? {
      assert c.up.l.n in Nodes(c.up.l);
    }
  }

  lemma OneUp(c: Path, t: Tree)
    requires c != Top && Sunk(c, t) && Distinct(Plug(c, t))
    ensures c.n.parent == PParent(c.up, null) && Fits(c.up, c.n, HeightAround(c, Height(t) + 1))
    ensures c.up != Top ==> (c.up.n.left != c.n <==> c.up.InR?)
  {
    hide Nodes; hide PNodes; hide Distinct; hide Plug; hide Down; hide Up; hide Bal; hide Height; hide WellFormed;
    hide PDistinct;
    OneUpNodes(c, t);
  }

  lemma SettledRoot(c: Path, t: Tree, u: Tree, w: Node, done: bool)
    requires c != Top && Settled(c, t, u, w, done)
    ensures w == TRoot(u) && TRoot(Around(c, t)) == c.n && Nodes(u) == Nodes(Around(c, t))
  {
  }

  lemma SunkTop(t: Tree)
    requires Sunk(Top, t)
    ensures WellFormed(Plug(Top, t), null)
  {
  }

  lemma SettledPlug(c: Path, t: Tree, u: Tree, w: Node, done: bool)
    requires c != Top && Settled(c, t, u, w, done) && Fits(c.up, w, HeightAround(c, Height(t) + 1))
             && Distinct(Plug(c, t))
    ensures InOrder(Plug(c.up, u)) == InOrder(Plug(c, t)) && Nodes(Plug(c.up, u)) == Nodes(Plug(c, t))
    ensures Distinct(Plug(c.up, u))
    ensures if done then WellFormed(Plug(c.up, u), null) else Sunk(c.up, u)
  {
    PlugNodes(c.up, Around(c, t));
    PlugNodes(c.up, u);
    PlugWellFormed(c.up, u);
  }

  // ---------- splicing ----------

  /** A node of a well-formed tree with its two subtrees and the path above it, all apart. */
  ghost predicate Opened(c: Path, l: Tree, p: Node, r: Tree)
    reads p, Nodes(l), Nodes(r), PNodes(c)
  {
    p.left == TRoot(l) && p.right == TRoot(r) && p.parent == PParent(c, null)
    && p.balance == Height(r) - Height(l) && -1 <= p.balance <= 1
    && WellFormed(l, p) && WellFormed(r, p) && Fits(c, p, 1 + Max(Height(l), Height(r)))
    && Apart(c, l, p, r)
  }

  ghost predicate Apart(c: Path, l: Tree, p: Node, r: Tree) {
    Distinct(l) && Distinct(r) && PDistinct(c) && p !in Nodes(l) && p !in Nodes(r) && p !in PNodes(c)
    && Nodes(l) !! Nodes(r) && Nodes(l) !! PNodes(c) && Nodes(r) !! PNodes(c)
  }

  /** As much of `Opened` as the place of `p` needs, with `h` for the height of its right subtree. */
  ghost predicate OpenedAbove(c: Path, l: Tree, p: Node, h: nat)
    reads p, Nodes(l), PNodes(c)
  {
    p.left == TRoot(l) && p.parent == PParent(c, null) && p.balance == h - Height(l) && -1 <= p.balance <= 1
    && WellFormed(l, p) && Fits(c, p, 1 + Max(Height(l), h))
    && Distinct(l) && PDistinct(c) && p !in Nodes(l) && p !in PNodes(c) && Nodes(l) !! PNodes(c)
  }

  lemma OpenAt(c: Path, l: Tree, p: Node, r: Tree)
    requires var t := Plug(c, Bin(l, p, r)); WellFormed(t, null) && Distinct(t)
    ensures Opened(c, l, p, r)
    ensures Nodes(Plug(c, Bin(l, p, r))) == Nodes(l) + {p} + Nodes(r) + PNodes(c)
    ensures p.parent != null ==> c != Top && p.parent == c.n && (c.n.left == p <==> c.InL?)
  {
    hide Plug; hide InOrder; hide PDistinct; hide Fits; hide PNodes;
    PlugWellFormed(c, Bin(l, p, r));
    PlugNodes(c, Bin(l, p, r));
    if c != Top {
      WhichChild(c, p, Height(Bin(l, p, r)));
    }
  }

  lemma WhichChild(c: Path, p: Node, h: nat)
    requires c != Top && Fits(c, p, h) && p !in PNodes(c)
    ensures c.n.left == p <==> c.InL?
  {
    hide Bal; hide PBal; hide Up; hide PUp;
    if c.InR? && c.l.Bin? {
      assert c.l.n in Nodes(c.l);
    }
  }

  /** Joining the path inside the right subtree to the path above the spliced node. */
  ghost function Extend(d: Path, base: Path): Path {
    match d
    case Top => base
    case InL(n, r, up) => InL(n, r, Extend(up, base))
    case InR(l, n, up) => InR(l, n, Extend(up, base))
  }

  ghost function PRoot(d: Path, hole: Node?): Node? {
    match d case Top => hole case InL(n, _, up) => PRoot(up, n) case InR(_, n, up) => PRoot(up, n)
  }

  ghost function PHeight(d: Path, h: nat): nat {
    match d
    case Top => h
    case InL(_, r, up) => PHeight(up, 1 + Max(h, Height(r)))
    case InR(l, _, up) => PHeight(up, 1 + Max(Height(l), h))
  }

  lemma {:induction false} PlugHeight(d: Path, t: Tree)
    ensures PHeight(d, Height(t)) == Height(Plug(d, t)) && PRoot(d, TRoot(t)) == TRoot(Plug(d, t))
  {
    match d
    case Top =>
    case InL(n, r, up) =>
      PlugHeight(up, Bin(t, n, r));
    case InR(l, n, up) =>
      PlugHeight(up, Bin(l, n, t));
  }

  lemma {:induction false} ExtendPlug(d: Path, base: Path, t: Tree)
    ensures Plug(Extend(d, base), t) == Plug(base, Plug(d, t)) && PNodes(Extend(d, base)) == PNodes(d) + PNodes(base)
    ensures PParent(Extend(d, base), null) == PParent(d, PParent(base, null))
            && Extend(d, base).InR? == (if d == Top then base.InR? else d.InR?)
  {
    match d
    case Top =>
    case InL(n, r, up) => ExtendPlug(up, base, Bin(t, n, r));
    case InR(l, n, up) => ExtendPlug(up, base, Bin(l, n, t));
  }

  lemma {:induction false} ExtendDown(d: Path, base: Path, hole: Node?)
    requires PDown(d, hole) && PDown(base, PRoot(d, hole))
    ensures PDown(Extend(d, base), hole)
  {
    match d
    case Top =>
    case InL(n, r, up) => ExtendDown(up, base, n);
    case InR(l, n, up) => ExtendDown(up, base, n);
  }

  lemma {:induction false} ExtendUp(d: Path, base: Path)
    requires PUp(d, PParent(base, null)) && PUp(base, null)
    ensures PUp(Extend(d, base), null)
  {
    match d
    case Top =>
    case InL(n, r, up) =>
      ExtendUp(up, base);
      ExtendPlug(up, base, Leaf);
    case InR(l, n, up) =>
      ExtendUp(up, base);
      ExtendPlug(up, base, Leaf);
  }

  lemma {:induction false} ExtendBal(d: Path, base: Path, h: nat)
    requires PBal(d, h) && PBal(base, PHeight(d, h))
    ensures PBal(Extend(d, base), h)
  {
    hide Bal; hide Height; hide Nodes; hide PNodes; hide Max;
    match d
    case Top =>
    case InL(n, r, up) => ExtendBal(up, base, 1 + Max(h, Height(r)));
    case InR(l, n, up) => ExtendBal(up, base, 1 + Max(Height(l), h));
  }

  lemma ExtendFits(d: Path, base: Path, hole: Node?, h: nat)
    requires PDown(d, hole) && PUp(d, PParent(base, null)) && PBal(d, h) && Fits(base, PRoot(d, hole), PHeight(d, h))
    ensures Fits(Extend(d, base), hole, h)
  {
    ExtendDown(d, base, hole);
    ExtendUp(d, base);
    ExtendBal(d, base, h);
  }

  lemma OpenedLinks(c: Path, l: Tree, p: Node, r: Tree)
    requires Opened(c, l, p, r)
    ensures p.left == TRoot(l) && p.right == TRoot(r) && p.parent == PParent(c, null) && Down(l) && Down(r)
    ensures r.Bin? ==> r.n.left == TRoot(r.l) && Nodes(r) == Nodes(r.l) + {r.n} + Nodes(r.r)
    ensures r == Leaf ==> Nodes(r) == {}
  {
  }

  lemma OpenedLeft(c: Path, l: Tree, p: Node)
    requires Opened(c, l, p, Leaf)
    ensures WellFormed(l, p) && Fits(c, p, Height(l) + 1) && Distinct(l) && PDistinct(c) && Nodes(l) !! PNodes(c)
  {
  }

  lemma HeirRight(c: Path, l: Tree, p: Node, r: Node, rr: Tree)
    requires Opened(c, l, p, Bin(Leaf, r, rr))
    ensures r != p && r !in Nodes(l) && r !in PNodes(c) && r !in Nodes(rr) && r.right == TRoot(rr)
    ensures WellFormed(rr, r) && Height(Bin(Leaf, r, rr)) == Height(rr) + 1 && OpenedAbove(c, l, p, Height(rr) + 1)
    ensures Nodes(rr) !! Nodes(l) && Nodes(rr) !! PNodes(c)
  {
    hide Fits; hide PDistinct; hide PNodes;
  }

  /** A path of left turns only. */
  ghost predicate Leftward(d: Path) {
    match d case Top => true case InL(_, _, up) => Leftward(up) case InR(_, _, _) => false
  }

  /** The descent to the leftmost node below the left child of `r0`. */
  method Leftmost(r0: Node, ghost r: Tree) returns (s: Node, ghost d: Path, ghost t: Tree)
    requires r.Bin? && r.l.Bin? && r0 == r.n && Down(r)
    ensures Plug(d, Bin(Leaf, s, t)) == r && d.InL? && Leftward(d)
  {
    s, d := r0.left, InL(r0, r.r, Top);
    ghost var b := r.l;
    while s.left != null
      invariant b.Bin? && b.n == s && Plug(d, b) == r && d.InL? && Leftward(d) && Down(b)
      decreases b
    {
      d, b := InL(s, b.r, d), b.l;
      s := s.left;
    }
    t := b.r;
  }

  lemma {:induction false} LeftwardBefore(d: Path)
    requires Leftward(d)
    ensures Before(d) == []
  {
    if d != Top {
      LeftwardBefore(d.up);
    }
  }

  lemma OpenedApart(c: Path, l: Tree, p: Node, r: Tree)
    requires Opened(c, l, p, r)
    ensures OpenedAbove(c, l, p, Height(r)) && Apart(c, l, p, r) && WellFormed(r, p) && p.right == TRoot(r)
  {
    hide WellFormed; hide Fits; hide Distinct; hide PDistinct; hide Height;
  }

  lemma HeirMinNodes(c: Path, l: Tree, p: Node, d: Path, s: Node, t: Tree)
    requires Apart(c, l, p, Plug(d, Bin(Leaf, s, t))) && d.InL?
    ensures s != p && s !in Nodes(l) && s !in PNodes(c) && s !in PNodes(d) && s !in Nodes(t) && d.n in PNodes(d)
    ensures Nodes(Plug(d, Bin(Leaf, s, t))) == PNodes(d) + {s} + Nodes(t)
    ensures PDistinct(d) && Nodes(t) !! PNodes(d) && Distinct(t)
  {
    hide Plug; hide InOrder; hide Before; hide After; hide Distinct; hide PDistinct;
    PlugNodes(d, Bin(Leaf, s, t));
    NoLeftChild(s, t);
  }

  lemma NoLeftChild(s: Node, t: Tree)
    ensures Nodes(Bin(Leaf, s, t)) == {s} + Nodes(t)
    ensures Distinct(Bin(Leaf, s, t)) <==> s !in Nodes(t) && Distinct(t)
  {
  }

  lemma {:induction false} PRootFixed(d: Path, a: Node?, b: Node?)
    requires d != Top
    ensures PRoot(d, a) == PRoot(d, b)
  {
    if d.up != Top {
      PRootFixed(d.up, d.n, d.n);
    }
  }

  lemma HeirMinLinks(p: Node, d: Path, s: Node, t: Tree)
    requires WellFormed(Plug(d, Bin(Leaf, s, t)), p) && d.InL?
    ensures s.right == TRoot(t) && s.parent == d.n && PDown(d, s) && PUp(d, p) && PBal(d, Height(t) + 1)
            && WellFormed(t, s)
    ensures TRoot(Plug(d, Bin(Leaf, s, t))) == PRoot(d, TRoot(t))
            && PHeight(d, Height(t) + 1) == Height(Plug(d, Bin(Leaf, s, t)))
  {
    hide Plug; hide PDown; hide PUp; hide PBal;
    var b := Bin(Leaf, s, t);
    assert Height(b) == Height(t) + 1;
    PlugDown(d, b);
    PlugUp(d, b, p);
    PlugBal(d, b);
    PlugHeight(d, b);
    PRootFixed(d, s, TRoot(t));
  }

  /** `s` gives its place in the right subtree of `p` to its own right subtree, and takes that whole side as its
      right. */
  method DetachMin(s: Node, rr: Node, p: Node, ghost d: Path, ghost t: Tree, ghost r: Tree)
    requires r == Plug(d, Bin(Leaf, s, t)) && d.InL? && d.n == rr && p.right == TRoot(r) && WellFormed(r, p)
    requires Distinct(r) && p !in Nodes(r)
    modifies rr`left, s`right, Tip(r)`parent, Tip(t)`parent
    ensures PDown(d, TRoot(t)) && PUp(d, s) && Up(t, rr) && Down(t) && s.right == TRoot(r)
  {
    hide Plug; hide Down; hide Up; hide Bal; hide PBal; hide PUp; hide Height; hide PHeight; hide PRoot; hide InOrder;
    hide Distinct;
    HeirMinLinks(p, d, s, t);
    HeirMinDistinct(d, s, t);
    assert allocated(PNodes(d)) && allocated(Nodes(t)) && allocated(Nodes(r));
    rr.left := s.right;
    s.right := p.right;
    ReparentMin(s, rr, p, d, t, r);
  }

  lemma HeirMinDistinct(d: Path, s: Node, t: Tree)
    requires Distinct(Plug(d, Bin(Leaf, s, t)))
    ensures PDistinct(d) && Distinct(t) && s !in Nodes(t) && s !in PNodes(d) && Nodes(t) !! PNodes(d)
  {
    hide Plug; hide InOrder; hide Before; hide After;
    PlugNodes(d, Bin(Leaf, s, t));
  }

  method ReparentMin(s: Node, rr: Node, p: Node, ghost d: Path, ghost t: Tree, ghost r: Tree)
    requires r == Plug(d, Bin(Leaf, s, t)) && d.InL? && d.n == rr && s.right == TRoot(r) && rr.left == TRoot(t)
    requires Up(r, p) && Distinct(r)
    modifies Tip(r)`parent, Tip(t)`parent
    ensures PUp(d, s) && Up(t, rr)
  {
    hide Plug; hide PUp; hide InOrder; hide Distinct; hide PNodes;
    HeirMinDistinct(d, s, t);
    assert allocated(PNodes(d)) && allocated(Nodes(t));
    Adopt(s.right, s, r, p);
    PlugUp(d, Bin(Leaf, s, t), s);
    assert Up(t, s);
    Adopt(rr.left, rr, t, s);
  }

  lemma Regroup<T>(b: seq<T>, l: seq<T>, s: T, m: seq<T>, a: seq<T>, f: seq<T>)
    ensures b + l + [s] + (m + a) + f == b + l + ([s] + m + a) + f
  {
  }

  /** With the leftmost heir in place of `p`, the sequence has lost `p` and nothing else. */
  lemma SplicedMin(c: Path, l: Tree, e: Path, s: Node, t: Tree)
    requires Leftward(e)
    ensures var d := Extend(e, InR(l, s, c)); var r := Plug(e, Bin(Leaf, s, t));
            InOrder(Plug(d, t)) == Before(c) + InOrder(l) + InOrder(r) + After(c)
            && PNodes(d) + Nodes(t) == PNodes(c) + Nodes(l) + Nodes(r)
  {
    hide Plug; hide Distinct; hide PDistinct; hide InOrder; hide Before; hide After; hide Extend; hide Nodes;
    hide PNodes;
    var base, b := InR(l, s, c), Bin(Leaf, s, t);
    ExtendPlug(e, base, t);
    PlugNodes(base, Plug(e, t));
    PlugNodes(e, t);
    PlugNodes(e, b);
    LeftwardBefore(e);
    AtHeir(c, l, s, t);
    var m, a := InOrder(t), After(e);
    assert [] + m == m && [] + ([s] + m) == [s] + m;
    Regroup(Before(c), InOrder(l), s, m, a, After(c));
  }

  lemma SplicedRoot(c: Path, l: Tree, p: Node, r: Tree, e: Path, s: Node, t: Tree)
    ensures var u, v := Plug(Extend(e, InR(l, s, c)), t), Plug(c, Bin(l, p, r));
            if c == Top then TRoot(u) == s else TRoot(u) == TRoot(v)
  {
    ExtendPlug(e, InR(l, s, c), t);
    PlugRoot(c, Bin(l, p, r), Bin(l, s, Plug(e, t)));
  }

  lemma AtHeir(c: Path, l: Tree, s: Node, t: Tree)
    ensures Before(InR(l, s, c)) == Before(c) + InOrder(l) + [s] && After(InR(l, s, c)) == After(c)
    ensures InOrder(Bin(Leaf, s, t)) == [s] + InOrder(t) && Nodes(Bin(Leaf, s, t)) == {s} + Nodes(t)
    ensures PNodes(InR(l, s, c)) == {s} + Nodes(l) + PNodes(c)
  {
  }

  lemma SplicedLeft(c: Path, l: Tree)
    ensures InOrder(Plug(c, l)) == Before(c) + InOrder(l) + InOrder(Leaf) + After(c)
    ensures Nodes(Plug(c, l)) == PNodes(c) + Nodes(l) + Nodes(Leaf)
  {
    hide Plug; hide Distinct; hide PDistinct;
    PlugNodes(c, l);
    assert Before(c) + InOrder(l) + [] == Before(c) + InOrder(l);
  }

  lemma SplicedRight(c: Path, l: Tree, r: Node, rr: Tree)
    ensures var d, x := InR(l, r, c), Bin(Leaf, r, rr);
            InOrder(Plug(d, rr)) == Before(c) + InOrder(l) + InOrder(x) + After(c)
            && Nodes(Plug(d, rr)) == PNodes(c) + Nodes(l) + Nodes(x)
  {
    hide Plug; hide Distinct; hide PDistinct; hide InOrder; hide Before; hide After; hide Nodes; hide PNodes;
    PlugNodes(InR(l, r, c), rr);
    AtHeir(c, l, r, rr);
    assert Before(c) + InOrder(l) + [r] + InOrder(rr) == Before(c) + InOrder(l) + ([r] + InOrder(rr));
  }

  /** Dropping the spliced node keeps the sequence sorted. */
  lemma SplicedSorted(c: Path, l: Tree, p: Node, r: Tree, u: Tree)
    requires Sorted(InOrder(Plug(c, Bin(l, p, r)))) && InOrder(u) == Before(c) + InOrder(l) + InOrder(r) + After(c)
    ensures Sorted(InOrder(u)) && Distinct(u) && |InOrder(u)| + 1 == |InOrder(Plug(c, Bin(l, p, r)))|
    ensures Nodes(u) == Nodes(Plug(c, Bin(l, p, r))) - {p}
  {
    hide Plug; hide Distinct; hide PDistinct; hide Before; hide After; hide Nodes; hide Sorted; hide Less;
    var t := Plug(c, Bin(l, p, r));
    PlugNodes(c, Bin(l, p, r));
    var a, b := Before(c) + InOrder(l), InOrder(r) + After(c);
    assert InOrder(t) == a + [p] + b && InOrder(u) == a + b;
    SortedDrop(a, p, b);
    SortedAround(a, p, b);
    SortedDistinct(u);
    NodesInOrder(t);
    NodesInOrder(u);
    DropOne(a, p, b);
  }

  lemma DropOne(a: seq<Node>, p: Node, b: seq<Node>)
    requires p !in a && p !in b
    ensures (set x | x in a + b) == (set x | x in a + [p] + b) - {p}
  {
    var s, u := a + [p] + b, a + b;
    forall x ensures x in s && x != p <==> x in u {
      assert x in s <==> x in a || x == p || x in b;
    }
  }
}

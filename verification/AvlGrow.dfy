/** Insertion below a leaf position: the walk back up that corrects balances, and what it leaves to rotate. */
module AvlGrow {
  import opened AvlTree
  import opened AvlRotate

  /** Every node on the path is even from the hole up to `y`, and `y` itself leans or is the root. */
  ghost predicate EvenUpTo(c: Path, y: Node?)
    reads PNodes(c)`balance
  {
    match c
    case Top => false
    case InL(n, _, up) => if n == y then n.balance != 0 || up == Top else n.balance == 0 && EvenUpTo(up, y)
    case InR(_, n, up) => if n == y then n.balance != 0 || up == Top else n.balance == 0 && EvenUpTo(up, y)
  }

  /** The state when the walk reaches `y`: both sides of `y` are balanced and its balance is true, possibly two;
      `h` was the height of its subtree before the insertion. */
  ghost predicate Reached(c: Path, t: Tree, y: Node, h: nat)
    reads Nodes(t)`balance
  {
    t.Bin? && t.n == y && Bal(t.l) && Bal(t.r) && y.balance == Height(t.r) - Height(t.l) && -2 <= y.balance <= 2
    && (y.balance == 0 ==> Height(t) == h)
    && (y.balance == 1 || y.balance == -1 ==> c == Top)
    && (y.balance == 2 ==> Height(t) == h + 1 && t.r.n.balance != 0)
    && (y.balance == -2 ==> Height(t) == h + 1 && t.l.n.balance != 0)
  }

  /** The state on the way up: the subtree at `p` is balanced and has grown by one over `h`. */
  ghost predicate Climbing(c: Path, t: Tree, p: Node, y: Node, h: nat)
    reads Nodes(t)`balance, PNodes(c)`balance
  {
    t.Bin? && p == t.n && Nodes(t) !! PNodes(c) && PDistinct(c) && PBal(c, h)
    && (p != y ==> EvenUpTo(c, y) && Bal(t) && Height(t) == h + 1 && (h > 0 ==> p.balance != 0))
    && (p == y ==> Reached(c, t, y, h))
  }

  /** The links around the hole. */
  ghost predicate Hung(c: Path, p: Node)
    reads p`parent, PNodes(c)`left, PNodes(c)`right, PNodes(c)`parent
  {
    PDown(c, p) && PUp(c, null) && p.parent == PParent(c, null)
  }

  lemma StepUp(c: Path, t: Tree)
    requires c != Top && t.Bin? && Nodes(t) !! PNodes(c) && PDistinct(c)
    ensures var u := if c.InL? then Bin(t, c.n, c.r) else Bin(c.l, c.n, t);
            Plug(c, t) == Plug(c.up, u) && Nodes(u) !! PNodes(c.up) && PDistinct(c.up) && PNodes(c.up) < PNodes(c)
    ensures c.n in PNodes(c) && c.n !in Nodes(t) + PNodes(c.up) + (if c.InL? then Nodes(c.r) else Nodes(c.l))
    ensures c.InR? ==> TRoot(c.l) != t.n
  {
    assert c.n !in PNodes(c.up) && c.n in PNodes(c);
    if c.InR? && c.l.Bin? {
      assert c.l.n in Nodes(c.l);
    }
  }

  lemma HungUp(c: Path, t: Tree)
    requires c != Top && t.Bin? && Hung(c, t.n) && Nodes(t) !! PNodes(c) && PDistinct(c)
    ensures Hung(c.up, c.n) && t.n.parent == c.n && (c.n.left != t.n <==> c.InR?)
  {
    StepUp(c, t);
  }

  /** A node on the way: not yet at `y`, so the path goes on. */
  lemma NotYet(c: Path, t: Tree, y: Node, h: nat)
    requires t.Bin? && t.n != y && Climbing(c, t, t.n, y, h)
    ensures c != Top && Nodes(t) !! PNodes(c) && PDistinct(c)
  {
  }

  /** The left subtree of `q` grew by one. */
  method BumpLeft(q: Node, y: Node, ghost c: Path, ghost t: Tree, ghost h: nat)
    requires c.InL? && c.n == q && t.Bin? && t.n != y && Climbing(c, t, t.n, y, h)
    modifies q`balance
    ensures Climbing(c.up, Bin(t, q, c.r), q, y, 1 + Max(h, Height(c.r)))
  {
    StepUp(c, t);
    q.balance := q.balance - 1;
  }

  /** The right subtree of `q` grew by one. */
  method BumpRight(q: Node, y: Node, ghost c: Path, ghost t: Tree, ghost h: nat)
    requires c.InR? && c.n == q && t.Bin? && t.n != y && Climbing(c, t, t.n, y, h)
    modifies q`balance
    ensures Climbing(c.up, Bin(c.l, q, t), q, y, 1 + Max(Height(c.l), h))
  {
    StepUp(c, t);
    q.balance := q.balance + 1;
  }

  /** Every balance between the new node and `y` goes one step towards the side that grew. */
  method Climb(n: Node, y: Node, ghost c0: Path) returns (ghost c: Path, ghost t: Tree, ghost h: nat)
    requires n != y && Climbing(c0, Bin(Leaf, n, Leaf), n, y, 0) && Hung(c0, n)
    modifies PNodes(c0)`balance
    ensures Plug(c, t) == Plug(c0, Bin(Leaf, n, Leaf)) && PBal(c, h) && Reached(c, t, y, h) && Hung(c, y)
  {
    hide Climbing; hide Hung; hide Plug; hide PDistinct; hide PNodes; hide Nodes;
    assert allocated(PNodes(c0));
    c, t, h := c0, Bin(Leaf, n, Leaf), 0;
    var p := n;
    while p != y
      invariant Plug(c, t) == Plug(c0, Bin(Leaf, n, Leaf)) && t.Bin? && p == t.n && PNodes(c) <= PNodes(c0)
      invariant Climbing(c, t, p, y, h) && Hung(c, p)
      decreases c
    {
      NotYet(c, t, y, h);
      HungUp(c, t);
      StepUp(c, t);
      assert allocated(PNodes(c.up)) && c.n in PNodes(c0);
      var q := p.parent;
      var dir := q.left != p;
      if !dir {
        BumpLeft(q, y, c, t, h);
        c, t, h := c.up, Bin(t, q, c.r), 1 + Max(h, Height(c.r));
      } else {
        BumpRight(q, y, c, t, h);
        c, t, h := c.up, Bin(c.l, q, t), 1 + Max(Height(c.l), h);
      }
      p := q;
    }
    AtY(c, t, y, h);
  }

  lemma AtY(c: Path, t: Tree, y: Node, h: nat)
    requires t.Bin? && t.n == y && Climbing(c, t, y, y, h)
    ensures PBal(c, h) && Reached(c, t, y, h)
  {
  }

  /** The rotation at `y`, needed only if its balance has become two. */
  method RotateAt(y: Node, ghost c: Path, ghost t: Tree, ghost h: nat) returns (w: Node, rotated: bool, ghost u: Tree)
    requires Leaning(t, y) && Reached(c, t, y, h)
    modifies Nodes(t)`left, Nodes(t)`right, Nodes(t)`parent, Nodes(t)`balance
    ensures w == TRoot(u) && w.parent == old(y.parent) && SameNodes(t, u) && WellFormed(u, old(y.parent))
    ensures c == Top || Height(u) == h
    ensures !rotated ==> u == t && w == y
  {
    if y.balance == -2 {
      rotated := true;
      w, u := GrowLeftHigh(y, t);
    } else if y.balance == 2 {
      rotated := true;
      w, u := GrowRightHigh(y, t);
    } else {
      rotated, w, u := false, y, t;
    }
  }

  /** An empty hole: the path holds the whole tree. */
  lemma EmptyHole(c: Path)
    requires Sorted(InOrder(Plug(c, Leaf)))
    ensures PNodes(c) == Nodes(Plug(c, Leaf)) && PDistinct(c)
    ensures c == Top <==> TRoot(Plug(c, Leaf)) == null
  {
    SortedDistinct(Plug(c, Leaf));
    PlugNodes(c, Leaf);
    PlugRoot(c, Leaf, Leaf);
  }

  /** A new leaf hung in an empty hole, before any balance is corrected. */
  ghost predicate Planted(c: Path, n: Node)
    reads Nodes(Bin(Leaf, n, Leaf)), PNodes(c)
  {
    WellFormed(Bin(Leaf, n, Leaf), PParent(c, null)) && Fits(c, n, 0) && n !in PNodes(c)
    && Sorted(InOrder(Plug(c, Bin(Leaf, n, Leaf))))
  }

  lemma WithLeaf(c: Path, n: Node)
    requires Planted(c, n)
    ensures var t := Plug(c, Bin(Leaf, n, Leaf));
            Distinct(t) && Nodes(t) == PNodes(c) + {n} && Down(t) && Up(t, null)
    ensures c == Top ==> TRoot(Plug(c, Bin(Leaf, n, Leaf))) == n && WellFormed(Plug(c, Bin(Leaf, n, Leaf)), null)
    ensures c != Top ==> TRoot(Plug(c, Bin(Leaf, n, Leaf))) != n
  {
    var leaf := Bin(Leaf, n, Leaf);
    SortedDistinct(Plug(c, leaf));
    PlugNodes(c, leaf);
    PlugDown(c, leaf);
    PlugUp(c, leaf, null);
    PlugRoot(c, leaf, leaf);
  }

  lemma {:induction false} EvenUpToOnPath(c: Path, y: Node?)
    requires EvenUpTo(c, y)
    ensures y in PNodes(c)
  {
    if c.n != y {
      EvenUpToOnPath(c.up, y);
    }
  }

  /** A regrouped subtree changes neither the sequence nor the set of nodes. */
  lemma SamePlugged(c: Path, t: Tree, u: Tree)
    requires SameNodes(t, u)
    ensures InOrder(Plug(c, u)) == InOrder(Plug(c, t)) && Nodes(Plug(c, u)) == Nodes(Plug(c, t))
  {
    PlugNodes(c, t);
    PlugNodes(c, u);
  }

  lemma BeforeClimb(c: Path, n: Node, y: Node)
    requires Planted(c, n) && EvenUpTo(c, y)
    ensures n != y && Climbing(c, Bin(Leaf, n, Leaf), n, y, 0) && Hung(c, n)
  {
    WithLeaf(c, n);
    PlugNodes(c, Bin(Leaf, n, Leaf));
    EvenUpToOnPath(c, y);
  }

  lemma AfterClimb(c0: Path, n: Node, c: Path, t: Tree, y: Node, h: nat)
    requires var u := Plug(c0, Bin(Leaf, n, Leaf)); u == Plug(c, t) && Distinct(u) && Down(u) && Up(u, null)
    requires Reached(c, t, y, h) && Hung(c, y)
    ensures Leaning(t, y) && Nodes(t) + PNodes(c) == Nodes(Plug(c0, Bin(Leaf, n, Leaf))) && t.Bin? && t.n == y
  {
    PlugNodes(c, t);
    PlugDown(c, t);
    PlugUp(c, t, null);
  }
}

/** The pointer surgery of rebalancing: the single and double rotations that insertion and deletion share. */
module AvlRotate {
  import opened AvlTree

  /** The root of a subtree, as a set. */
  ghost function Tip(t: Tree): (s: set<Node>)
    ensures s <= Nodes(t)
  {
    if t.Bin? then {t.n} else {}
  }

  /** A subtree hung in place of another on the same side keeps order when it lists the same nodes. */
  ghost predicate SameNodes(t: Tree, u: Tree) {
    InOrder(t) == InOrder(u) && Nodes(t) == Nodes(u) && Distinct(u)
  }

  /** `if (child != NULL) child->avl_parent = up`, for a child that heads `t`. */
  method Adopt(child: Node?, up: Node?, ghost t: Tree, ghost from: Node?)
    requires child == TRoot(t) && Distinct(t) && Up(t, from)
    modifies Tip(t)`parent
    ensures Up(t, up)
  {
    if child != null {
      child.parent := up;
    }
  }

  ghost predicate CanRotateLeft(t: Tree) {
    t.Bin? && t.r.Bin?
  }

  ghost function RotatedLeft(t: Tree): Tree
    requires CanRotateLeft(t)
  {
    Bin(Bin(t.l, t.n, t.r.l), t.r.n, t.r.r)
  }

  ghost predicate CanRotateRight(t: Tree) {
    t.Bin? && t.l.Bin?
  }

  ghost function RotatedRight(t: Tree): Tree
    requires CanRotateRight(t)
  {
    Bin(t.l.l, t.l.n, Bin(t.l.r, t.n, t.r))
  }

  lemma RotatedLeftSameNodes(t: Tree)
    requires CanRotateLeft(t) && Distinct(t)
    ensures SameNodes(t, RotatedLeft(t))
  {
    var u, v := RotatedLeft(t), t.r;
    assert InOrder(t) == InOrder(t.l) + [t.n] + (InOrder(v.l) + [v.n] + InOrder(v.r));
    assert InOrder(u) == (InOrder(t.l) + [t.n] + InOrder(v.l)) + [v.n] + InOrder(v.r);
    assert Distinct(v) && Distinct(u.l);
    assert Nodes(v) == Nodes(v.l) + {v.n} + Nodes(v.r) && Nodes(u.l) == Nodes(t.l) + {t.n} + Nodes(v.l);
  }

  lemma RotatedRightSameNodes(t: Tree)
    requires CanRotateRight(t) && Distinct(t)
    ensures SameNodes(t, RotatedRight(t))
  {
    var u, v := RotatedRight(t), t.l;
    assert InOrder(t) == (InOrder(v.l) + [v.n] + InOrder(v.r)) + [t.n] + InOrder(t.r);
    assert InOrder(u) == InOrder(v.l) + [v.n] + (InOrder(v.r) + [t.n] + InOrder(t.r));
    assert Distinct(v) && Distinct(u.r);
    assert Nodes(v) == Nodes(v.l) + {v.n} + Nodes(v.r) && Nodes(u.r) == Nodes(v.r) + {t.n} + Nodes(t.r);
  }

  /** A left rotation at `y`; the balances are left to the caller. */
  method SingleLeft(y: Node, ghost t: Tree) returns (x: Node)
    requires CanRotateLeft(t) && t.n == y && Distinct(t) && Down(t) && Up(t, y.parent)
    modifies {t.n, t.r.n}`left, {t.n, t.r.n}`right, ({t.n, t.r.n} + Tip(t.r.l))`parent
    ensures x == t.r.n && SameNodes(t, RotatedLeft(t))
    ensures Down(RotatedLeft(t)) && Up(RotatedLeft(t), old(y.parent))
  {
    RotatedLeftSameNodes(t);
    ghost var r := t.r;
    assert Distinct(r) && Down(r) && Up(r, y) && Nodes(r) == Nodes(r.l) + {r.n} + Nodes(r.r);
    assert allocated(Nodes(t.l)) && allocated(Nodes(r.l)) && allocated(Nodes(r.r));
    x := y.right;
    y.right := x.left;
    x.left := y;
    x.parent := y.parent;
    y.parent := x;
    Adopt(y.right, y, r.l, x);
    assert Down(Bin(t.l, y, r.l)) && Up(Bin(t.l, y, r.l), x);
  }

  method SingleRight(y: Node, ghost t: Tree) returns (x: Node)
    requires CanRotateRight(t) && t.n == y && Distinct(t) && Down(t) && Up(t, y.parent)
    modifies {t.n, t.l.n}`left, {t.n, t.l.n}`right, ({t.n, t.l.n} + Tip(t.l.r))`parent
    ensures x == t.l.n && SameNodes(t, RotatedRight(t))
    ensures Down(RotatedRight(t)) && Up(RotatedRight(t), old(y.parent))
  {
    RotatedRightSameNodes(t);
    ghost var l := t.l;
    assert Distinct(l) && Down(l) && Up(l, y) && Nodes(l) == Nodes(l.l) + {l.n} + Nodes(l.r);
    assert allocated(Nodes(l.l)) && allocated(Nodes(l.r)) && allocated(Nodes(t.r));
    x := y.left;
    y.left := x.right;
    x.right := y;
    x.parent := y.parent;
    y.parent := x;
    Adopt(y.left, y, l.r, x);
    assert Down(Bin(l.r, y, t.r)) && Up(Bin(l.r, y, t.r), x);
  }

  ghost predicate CanRotateRightLeft(t: Tree) {
    t.Bin? && t.r.Bin? && t.r.l.Bin?
  }

  /** A right rotation of the right child followed by a left rotation. */
  ghost function RotatedRightLeft(t: Tree): Tree
    requires CanRotateRightLeft(t)
  {
    Bin(Bin(t.l, t.n, t.r.l.l), t.r.l.n, Bin(t.r.l.r, t.r.n, t.r.r))
  }

  ghost predicate CanRotateLeftRight(t: Tree) {
    t.Bin? && t.l.Bin? && t.l.r.Bin?
  }

  ghost function RotatedLeftRight(t: Tree): Tree
    requires CanRotateLeftRight(t)
  {
    Bin(Bin(t.l.l, t.l.n, t.l.r.l), t.l.r.n, Bin(t.l.r.r, t.n, t.r))
  }

  lemma RotatedRightLeftSameNodes(t: Tree)
    requires CanRotateRightLeft(t) && Distinct(t)
    ensures SameNodes(t, RotatedRightLeft(t))
  {
    var u := Bin(t.l, t.n, RotatedRight(t.r));
    RotatedRightSameNodes(t.r);
    RotatedLeftSameNodes(u);
  }

  lemma RotatedLeftRightSameNodes(t: Tree)
    requires CanRotateLeftRight(t) && Distinct(t)
    ensures SameNodes(t, RotatedLeftRight(t))
  {
    var u := Bin(RotatedLeft(t.l), t.n, t.r);
    RotatedLeftSameNodes(t.l);
    RotatedRightSameNodes(u);
  }

  // ---------- rebalancing a node whose sides differ by two ----------

  /** `t` is linked and key-wise intact, both sides are balanced, and its root holds their height difference. */
  ghost predicate Leaning(t: Tree, y: Node)
    reads y, Nodes(t)
  {
    t.Bin? && t.n == y && Distinct(t) && Down(t) && Up(t, y.parent)
    && Bal(t.l) && Bal(t.r) && y.balance == Height(t.r) - Height(t.l)
  }

  /** `u` lists the nodes of `t` in the same order, hangs under the same parent, and is balanced. */
  ghost predicate Rebalanced(t: Tree, u: Tree, outer: Node?)
    reads Nodes(u)
  {
    SameNodes(t, u) && Down(u) && Up(u, outer) && Bal(u)
  }

  lemma LeanRight(t: Tree, y: Node)
    requires Leaning(t, y) && y.balance == 2
    ensures CanRotateLeft(t) && y.right == t.r.n && -1 <= t.r.n.balance <= 1
    ensures t.r.n.balance == Height(t.r.r) - Height(t.r.l) && Bal(t.r.l) && Bal(t.r.r)
    ensures t.r.n.balance == -1 ==> CanRotateRightLeft(t)
  {
  }

  lemma LeanLeft(t: Tree, y: Node)
    requires Leaning(t, y) && y.balance == -2
    ensures CanRotateRight(t) && y.left == t.l.n && -1 <= t.l.n.balance <= 1
    ensures t.l.n.balance == Height(t.l.r) - Height(t.l.l) && Bal(t.l.l) && Bal(t.l.r)
    ensures t.l.n.balance == 1 ==> CanRotateLeftRight(t)
  {
  }

  /** The four subtrees a double rotation regroups, with their heights. */
  lemma LeanRightLeft(t: Tree, y: Node)
    requires Leaning(t, y) && y.balance == 2 && CanRotateRightLeft(t) && t.r.n.balance == -1
    ensures var a, b, c, d, m := t.l, t.r.l.l, t.r.l.r, t.r.r, t.r.l.n;
            Bal(a) && Bal(b) && Bal(c) && Bal(d) && Height(a) == Height(d) == Max(Height(b), Height(c))
            && m.balance == Height(c) - Height(b) && -1 <= m.balance <= 1 && Height(t) == 3 + Height(a)
  {
    LeanRight(t, y);
    assert Height(t.r) == 1 + Max(Height(t.r.l), Height(t.r.r));
    assert Bal(t.r.l);
  }

  lemma LeanLeftRight(t: Tree, y: Node)
    requires Leaning(t, y) && y.balance == -2 && CanRotateLeftRight(t) && t.l.n.balance == 1
    ensures var a, b, c, d, m := t.l.l, t.l.r.l, t.l.r.r, t.r, t.l.r.n;
            Bal(a) && Bal(b) && Bal(c) && Bal(d) && Height(a) == Height(d) == Max(Height(b), Height(c))
            && m.balance == Height(c) - Height(b) && -1 <= m.balance <= 1 && Height(t) == 3 + Height(a)
  {
    LeanLeft(t, y);
    assert Height(t.l) == 1 + Max(Height(t.l.l), Height(t.l.r));
    assert Bal(t.l.r);
  }

  lemma SeparateRightLeft(t: Tree)
    requires CanRotateRightLeft(t) && Distinct(t)
    ensures var s := {t.n, t.r.n, t.r.l.n};
            s !! Nodes(t.l) && s !! Nodes(t.r.l.l) && s !! Nodes(t.r.l.r) && s !! Nodes(t.r.r)
            && t.n != t.r.n && t.r.n != t.r.l.n && t.n != t.r.l.n
    ensures {t.n, t.r.n, t.r.l.n} + Tip(t.r.l.l) + Tip(t.r.l.r) <= Nodes(t)
  {
    var r, m := t.r, t.r.l;
    assert Distinct(r) && Nodes(r) == Nodes(m) + {r.n} + Nodes(r.r);
    assert Distinct(m) && Nodes(m) == Nodes(m.l) + {m.n} + Nodes(m.r);
  }

  lemma SeparateLeftRight(t: Tree)
    requires CanRotateLeftRight(t) && Distinct(t)
    ensures var s := {t.n, t.l.n, t.l.r.n};
            s !! Nodes(t.l.l) && s !! Nodes(t.l.r.l) && s !! Nodes(t.l.r.r) && s !! Nodes(t.r)
            && t.n != t.l.n && t.l.n != t.l.r.n && t.n != t.l.r.n
    ensures {t.n, t.l.n, t.l.r.n} + Tip(t.l.r.l) + Tip(t.l.r.r) <= Nodes(t)
  {
    var l, m := t.l, t.l.r;
    assert Distinct(l) && Nodes(l) == Nodes(l.l) + {l.n} + Nodes(m);
    assert Distinct(m) && Nodes(m) == Nodes(m.l) + {m.n} + Nodes(m.r);
  }

  lemma BalJoin(a: Tree, y: Node, b: Tree, w: Node, c: Tree, x: Node, d: Tree)
    requires Bal(a) && Bal(b) && Bal(c) && Bal(d)
    requires y.balance == Height(b) - Height(a) && -1 <= y.balance <= 1
    requires x.balance == Height(d) - Height(c) && -1 <= x.balance <= 1
    requires w.balance == 0 && Max(Height(a), Height(b)) == Max(Height(c), Height(d))
    ensures Bal(Bin(Bin(a, y, b), w, Bin(c, x, d)))
    ensures Height(Bin(Bin(a, y, b), w, Bin(c, x, d))) == 2 + Max(Height(a), Height(b))
  {
  }

  // ---------- double rotations ----------

  /** The child pointers of the double rotation. */
  method RelinkRightLeft(y: Node, ghost t: Tree) returns (x: Node, w: Node)
    requires CanRotateRightLeft(t) && t.n == y && Distinct(t) && Down(t)
    modifies {t.n, t.r.n, t.r.l.n}`left, {t.n, t.r.n, t.r.l.n}`right
    ensures x == t.r.n && w == t.r.l.n && Down(RotatedRightLeft(t))
  {
    ghost var r, m := t.r, t.r.l;
    assert Distinct(r) && Down(r) && Nodes(r) == Nodes(m) + {r.n} + Nodes(r.r);
    assert Distinct(m) && Down(m) && Nodes(m) == Nodes(m.l) + {m.n} + Nodes(m.r);
    x := y.right;
    w := x.left;
    x.left := w.right;
    w.right := x;
    y.right := w.left;
    w.left := y;
    assert Down(Bin(t.l, y, m.l)) && Down(Bin(m.r, x, r.r));
  }

  /** The balances of the double rotation. */
  method SettleRightLeft(y: Node, x: Node, w: Node)
    requires y != x && x != w && w != y && -1 <= w.balance <= 1
    modifies {y, x, w}`balance
    ensures w.balance == 0
    ensures y.balance == if old(w.balance) == 1 then -1 else 0
    ensures x.balance == if old(w.balance) == -1 then 1 else 0
  {
    if w.balance == 1 {
      x.balance, y.balance := 0, -1;
    } else if w.balance == 0 {
      x.balance, y.balance := 0, 0;
    } else {
      x.balance, y.balance := 1, 0;
    }
    w.balance := 0;
  }

  method SettleLeftRight(y: Node, x: Node, w: Node)
    requires y != x && x != w && w != y && -1 <= w.balance <= 1
    modifies {y, x, w}`balance
    ensures w.balance == 0
    ensures y.balance == if old(w.balance) == -1 then 1 else 0
    ensures x.balance == if old(w.balance) == 1 then -1 else 0
  {
    if w.balance == -1 {
      x.balance, y.balance := 0, 1;
    } else if w.balance == 0 {
      x.balance, y.balance := 0, 0;
    } else {
      x.balance, y.balance := -1, 0;
    }
    w.balance := 0;
  }

  /** The parent pointers of the double rotation. */
  method ReparentRightLeft(y: Node, x: Node, w: Node, ghost t: Tree)
    requires CanRotateRightLeft(t) && t.n == y && t.r.n == x && t.r.l.n == w && Distinct(t) && Up(t, y.parent)
    requires Down(RotatedRightLeft(t))
    modifies ({t.n, t.r.n, t.r.l.n} + Tip(t.r.l.l) + Tip(t.r.l.r))`parent
    ensures Up(RotatedRightLeft(t), old(y.parent))
  {
    ghost var r, m := t.r, t.r.l;
    assert Distinct(r) && Up(r, y) && Nodes(r) == Nodes(m) + {r.n} + Nodes(r.r);
    assert Distinct(m) && Up(m, x) && Nodes(m) == Nodes(m.l) + {m.n} + Nodes(m.r);
    assert Down(Bin(t.l, y, m.l)) && Down(Bin(m.r, x, r.r));
    assert allocated(Nodes(t.l)) && allocated(Nodes(m.l)) && allocated(Nodes(m.r)) && allocated(Nodes(r.r));
    w.parent := y.parent;
    x.parent, y.parent := w, w;
    Adopt(x.left, x, m.r, w);
    Adopt(y.right, y, m.l, w);
    assert Up(Bin(t.l, y, m.l), w) && Up(Bin(m.r, x, r.r), w);
  }

  /** The double rotation with its balances. */
  method SpinRightLeft(y: Node, ghost t: Tree) returns (w: Node)
    requires CanRotateRightLeft(t) && t.n == y && Distinct(t) && Down(t) && Up(t, y.parent)
             && -1 <= t.r.l.n.balance <= 1
    modifies {t.n, t.r.n, t.r.l.n}`left, {t.n, t.r.n, t.r.l.n}`right, {t.n, t.r.n, t.r.l.n}`balance
    modifies ({t.n, t.r.n, t.r.l.n} + Tip(t.r.l.l) + Tip(t.r.l.r))`parent
    ensures w == t.r.l.n && SameNodes(t, RotatedRightLeft(t))
    ensures Down(RotatedRightLeft(t)) && Up(RotatedRightLeft(t), old(y.parent))
    ensures w.balance == 0
    ensures y.balance == if old(t.r.l.n.balance) == 1 then -1 else 0
    ensures t.r.n.balance == if old(t.r.l.n.balance) == -1 then 1 else 0
  {
    RotatedRightLeftSameNodes(t);
    SeparateRightLeft(t);
    assert allocated(Nodes(t));
    var x;
    x, w := RelinkRightLeft(y, t);
    SettleRightLeft(y, x, w);
    ReparentRightLeft(y, x, w, t);
  }

  /** Right side two higher, right child leaning left: the double rotation restores balance, one level lower. */
  method DoubleRightLeft(y: Node, ghost t: Tree) returns (w: Node)
    requires Leaning(t, y) && y.balance == 2 && CanRotateRightLeft(t) && t.r.n.balance == -1
    modifies {t.n, t.r.n, t.r.l.n}`left, {t.n, t.r.n, t.r.l.n}`right, {t.n, t.r.n, t.r.l.n}`balance
    modifies ({t.n, t.r.n, t.r.l.n} + Tip(t.r.l.l) + Tip(t.r.l.r))`parent
    ensures w == TRoot(RotatedRightLeft(t)) && Rebalanced(t, RotatedRightLeft(t), old(y.parent))
    ensures Height(RotatedRightLeft(t)) == Height(t) - 1
  {
    hide Down; hide Up; hide Distinct; hide InOrder; hide Nodes; hide Bal;
    LeanRightLeft(t, y);
    SeparateRightLeft(t);
    ghost var a, b, c, d := t.l, t.r.l.l, t.r.l.r, t.r.r;
    assert allocated(Nodes(a)) && allocated(Nodes(b)) && allocated(Nodes(c)) && allocated(Nodes(d));
    w := SpinRightLeft(y, t);
    BalJoin(a, y, b, w, c, t.r.n, d);
  }

  method RelinkLeftRight(y: Node, ghost t: Tree) returns (x: Node, w: Node)
    requires CanRotateLeftRight(t) && t.n == y && Distinct(t) && Down(t)
    modifies {t.n, t.l.n, t.l.r.n}`left, {t.n, t.l.n, t.l.r.n}`right
    ensures x == t.l.n && w == t.l.r.n && Down(RotatedLeftRight(t))
  {
    ghost var l, m := t.l, t.l.r;
    assert Distinct(l) && Down(l) && Nodes(l) == Nodes(l.l) + {l.n} + Nodes(m);
    assert Distinct(m) && Down(m) && Nodes(m) == Nodes(m.l) + {m.n} + Nodes(m.r);
    x := y.left;
    w := x.right;
    x.right := w.left;
    w.left := x;
    y.left := w.right;
    w.right := y;
    assert Down(Bin(l.l, x, m.l)) && Down(Bin(m.r, y, t.r));
  }

  method ReparentLeftRight(y: Node, x: Node, w: Node, ghost t: Tree)
    requires CanRotateLeftRight(t) && t.n == y && t.l.n == x && t.l.r.n == w && Distinct(t) && Up(t, y.parent)
    requires Down(RotatedLeftRight(t))
    modifies ({t.n, t.l.n, t.l.r.n} + Tip(t.l.r.l) + Tip(t.l.r.r))`parent
    ensures Up(RotatedLeftRight(t), old(y.parent))
  {
    ghost var l, m := t.l, t.l.r;
    assert Distinct(l) && Up(l, y) && Nodes(l) == Nodes(l.l) + {l.n} + Nodes(m);
    assert Distinct(m) && Up(m, x) && Nodes(m) == Nodes(m.l) + {m.n} + Nodes(m.r);
    assert Down(Bin(l.l, x, m.l)) && Down(Bin(m.r, y, t.r));
    assert allocated(Nodes(l.l)) && allocated(Nodes(m.l)) && allocated(Nodes(m.r)) && allocated(Nodes(t.r));
    w.parent := y.parent;
    x.parent, y.parent := w, w;
    Adopt(x.right, x, m.l, w);
    Adopt(y.left, y, m.r, w);
    assert Up(Bin(l.l, x, m.l), w) && Up(Bin(m.r, y, t.r), w);
  }

  /** The double rotation with its balances. */
  method SpinLeftRight(y: Node, ghost t: Tree) returns (w: Node)
    requires CanRotateLeftRight(t) && t.n == y && Distinct(t) && Down(t) && Up(t, y.parent)
             && -1 <= t.l.r.n.balance <= 1
    modifies {t.n, t.l.n, t.l.r.n}`left, {t.n, t.l.n, t.l.r.n}`right, {t.n, t.l.n, t.l.r.n}`balance
    modifies ({t.n, t.l.n, t.l.r.n} + Tip(t.l.r.l) + Tip(t.l.r.r))`parent
    ensures w == t.l.r.n && SameNodes(t, RotatedLeftRight(t))
    ensures Down(RotatedLeftRight(t)) && Up(RotatedLeftRight(t), old(y.parent))
    ensures w.balance == 0
    ensures y.balance == if old(t.l.r.n.balance) == -1 then 1 else 0
    ensures t.l.n.balance == if old(t.l.r.n.balance) == 1 then -1 else 0
  {
    RotatedLeftRightSameNodes(t);
    SeparateLeftRight(t);
    assert allocated(Nodes(t));
    var x;
    x, w := RelinkLeftRight(y, t);
    SettleLeftRight(y, x, w);
    ReparentLeftRight(y, x, w, t);
  }

  /** Left side two higher, left child leaning right: the double rotation restores balance, one level lower. */
  method DoubleLeftRight(y: Node, ghost t: Tree) returns (w: Node)
    requires Leaning(t, y) && y.balance == -2 && CanRotateLeftRight(t) && t.l.n.balance == 1
    modifies {t.n, t.l.n, t.l.r.n}`left, {t.n, t.l.n, t.l.r.n}`right, {t.n, t.l.n, t.l.r.n}`balance
    modifies ({t.n, t.l.n, t.l.r.n} + Tip(t.l.r.l) + Tip(t.l.r.r))`parent
    ensures w == TRoot(RotatedLeftRight(t)) && Rebalanced(t, RotatedLeftRight(t), old(y.parent))
    ensures Height(RotatedLeftRight(t)) == Height(t) - 1
  {
    hide Down; hide Up; hide Distinct; hide InOrder; hide Nodes; hide Bal;
    LeanLeftRight(t, y);
    SeparateLeftRight(t);
    ghost var a, b, c, d := t.l.l, t.l.r.l, t.l.r.r, t.r;
    assert allocated(Nodes(a)) && allocated(Nodes(b)) && allocated(Nodes(c)) && allocated(Nodes(d));
    w := SpinLeftRight(y, t);
    BalJoin(a, t.l.n, b, w, c, y, d);
  }

  // ---------- single rotations with balances ----------

  /** The balances of a single rotation; `lean` is where the new root leans if it was even. */
  method SettleSingle(y: Node, x: Node, lean: int)
    requires x != y
    modifies {y, x}`balance
    ensures x.balance == if old(x.balance) == 0 then lean else 0
    ensures y.balance == if old(x.balance) == 0 then -lean else 0
  {
    if x.balance == 0 {
      x.balance, y.balance := lean, -lean;
    } else {
      x.balance, y.balance := 0, 0;
    }
  }

  /** A single rotation with its balances. */
  method SpinLeft(y: Node, ghost t: Tree) returns (x: Node)
    requires CanRotateLeft(t) && t.n == y && Distinct(t) && Down(t) && Up(t, y.parent)
    modifies {t.n, t.r.n}`left, {t.n, t.r.n}`right, {t.n, t.r.n}`balance, ({t.n, t.r.n} + Tip(t.r.l))`parent
    ensures x == t.r.n && SameNodes(t, RotatedLeft(t))
    ensures Down(RotatedLeft(t)) && Up(RotatedLeft(t), old(y.parent))
    ensures x.balance == if old(t.r.n.balance) == 0 then -1 else 0
    ensures y.balance == if old(t.r.n.balance) == 0 then 1 else 0
  {
    SeparateLeft(t);
    assert allocated(Nodes(t));
    x := SingleLeft(y, t);
    SettleSingle(y, x, -1);
  }

  method SpinRight(y: Node, ghost t: Tree) returns (x: Node)
    requires CanRotateRight(t) && t.n == y && Distinct(t) && Down(t) && Up(t, y.parent)
    modifies {t.n, t.l.n}`left, {t.n, t.l.n}`right, {t.n, t.l.n}`balance, ({t.n, t.l.n} + Tip(t.l.r))`parent
    ensures x == t.l.n && SameNodes(t, RotatedRight(t))
    ensures Down(RotatedRight(t)) && Up(RotatedRight(t), old(y.parent))
    ensures x.balance == if old(t.l.n.balance) == 0 then 1 else 0
    ensures y.balance == if old(t.l.n.balance) == 0 then -1 else 0
  {
    SeparateRight(t);
    assert allocated(Nodes(t));
    x := SingleRight(y, t);
    SettleSingle(y, x, 1);
  }

  /** Right side two higher, right child not leaning left: a single rotation. The subtree keeps its height
      exactly when the right child was even, which only deletion can bring about. */
  method TurnRightHigh(y: Node, ghost t: Tree) returns (x: Node)
    requires Leaning(t, y) && y.balance == 2 && CanRotateLeft(t) && 0 <= t.r.n.balance <= 1
    modifies {t.n, t.r.n}`left, {t.n, t.r.n}`right, {t.n, t.r.n}`balance, ({t.n, t.r.n} + Tip(t.r.l))`parent
    ensures x == TRoot(RotatedLeft(t)) && Rebalanced(t, RotatedLeft(t), old(y.parent))
    ensures Height(RotatedLeft(t)) == if old(t.r.n.balance) == 0 then Height(t) else Height(t) - 1
    ensures x.balance == if old(t.r.n.balance) == 0 then -1 else 0
  {
    hide Down; hide Up; hide Distinct; hide InOrder; hide Nodes; hide Bal;
    LeanRight(t, y);
    ghost var a, b, c := t.l, t.r.l, t.r.r;
    SeparateLeft(t);
    assert allocated(Nodes(a)) && allocated(Nodes(b)) && allocated(Nodes(c));
    x := SpinLeft(y, t);
    assert Bal(a) && Bal(b) && Bal(c);
    BalTurnLeft(a, y, b, x, c);
  }

  method TurnLeftHigh(y: Node, ghost t: Tree) returns (x: Node)
    requires Leaning(t, y) && y.balance == -2 && CanRotateRight(t) && -1 <= t.l.n.balance <= 0
    modifies {t.n, t.l.n}`left, {t.n, t.l.n}`right, {t.n, t.l.n}`balance, ({t.n, t.l.n} + Tip(t.l.r))`parent
    ensures x == TRoot(RotatedRight(t)) && Rebalanced(t, RotatedRight(t), old(y.parent))
    ensures Height(RotatedRight(t)) == if old(t.l.n.balance) == 0 then Height(t) else Height(t) - 1
    ensures x.balance == if old(t.l.n.balance) == 0 then 1 else 0
  {
    hide Down; hide Up; hide Distinct; hide InOrder; hide Nodes; hide Bal;
    LeanLeft(t, y);
    ghost var a, b, c := t.l.l, t.l.r, t.r;
    SeparateRight(t);
    assert allocated(Nodes(a)) && allocated(Nodes(b)) && allocated(Nodes(c));
    x := SpinRight(y, t);
    assert Bal(a) && Bal(b) && Bal(c);
    BalTurnRight(a, x, b, y, c);
  }

  lemma SeparateLeft(t: Tree)
    requires CanRotateLeft(t) && Distinct(t)
    ensures var s := {t.n, t.r.n};
            s !! Nodes(t.l) && s !! Nodes(t.r.l) && s !! Nodes(t.r.r) && t.n != t.r.n
    ensures {t.n, t.r.n} + Tip(t.r.l) <= Nodes(t)
  {
    assert Distinct(t.r) && Nodes(t.r) == Nodes(t.r.l) + {t.r.n} + Nodes(t.r.r);
  }

  lemma SeparateRight(t: Tree)
    requires CanRotateRight(t) && Distinct(t)
    ensures var s := {t.n, t.l.n};
            s !! Nodes(t.l.l) && s !! Nodes(t.l.r) && s !! Nodes(t.r) && t.n != t.l.n
    ensures {t.n, t.l.n} + Tip(t.l.r) <= Nodes(t)
  {
    assert Distinct(t.l) && Nodes(t.l) == Nodes(t.l.l) + {t.l.n} + Nodes(t.l.r);
  }

  lemma BalTurnLeft(a: Tree, y: Node, b: Tree, x: Node, c: Tree)
    requires Bal(a) && Bal(b) && Bal(c)
    requires y.balance == Height(b) - Height(a) && -1 <= y.balance <= 1
    requires x.balance == Height(c) - Height(Bin(a, y, b)) && -1 <= x.balance <= 1
    ensures Bal(Bin(Bin(a, y, b), x, c))
  {
  }

  lemma BalTurnRight(a: Tree, x: Node, b: Tree, y: Node, c: Tree)
    requires Bal(a) && Bal(b) && Bal(c)
    requires y.balance == Height(c) - Height(b) && -1 <= y.balance <= 1
    requires x.balance == Height(Bin(b, y, c)) - Height(a) && -1 <= x.balance <= 1
    ensures Bal(Bin(a, x, Bin(b, y, c)))
  {
  }

  // ---------- one entry point each for the two sides, over any subtree ----------

  ghost predicate FixedTo(t: Tree, u: Tree, outer: Node?, w: Node)
    reads Nodes(u)
  {
    w == TRoot(u) && Rebalanced(t, u, outer)
  }

  /** Deletion: the right side of `y` is two higher. */
  method ShrinkRightHigh(y: Node, ghost t: Tree) returns (w: Node, done: bool, ghost u: Tree)
    requires Leaning(t, y) && y.balance == 2
    modifies Nodes(t)`left, Nodes(t)`right, Nodes(t)`parent, Nodes(t)`balance
    ensures FixedTo(t, u, old(y.parent), w)
    ensures Height(u) == if done then Height(t) else Height(t) - 1
  {
    LeanRight(t, y);
    if y.right.balance == -1 {
      SeparateRightLeft(t);
      u, done := RotatedRightLeft(t), false;
      w := DoubleRightLeft(y, t);
    } else {
      SeparateLeft(t);
      u, done := RotatedLeft(t), y.right.balance == 0;
      w := TurnRightHigh(y, t);
    }
  }

  /** Deletion: the left side of `y` is two higher. */
  method ShrinkLeftHigh(y: Node, ghost t: Tree) returns (w: Node, done: bool, ghost u: Tree)
    requires Leaning(t, y) && y.balance == -2
    modifies Nodes(t)`left, Nodes(t)`right, Nodes(t)`parent, Nodes(t)`balance
    ensures FixedTo(t, u, old(y.parent), w)
    ensures Height(u) == if done then Height(t) else Height(t) - 1
  {
    LeanLeft(t, y);
    if y.left.balance == 1 {
      SeparateLeftRight(t);
      u, done := RotatedLeftRight(t), false;
      w := DoubleLeftRight(y, t);
    } else {
      SeparateRight(t);
      u, done := RotatedRight(t), y.left.balance == 0;
      w := TurnLeftHigh(y, t);
    }
  }

  /** Insertion: the right side of `y` has grown to be two higher, so its root cannot be even. */
  method GrowRightHigh(y: Node, ghost t: Tree) returns (w: Node, ghost u: Tree)
    requires Leaning(t, y) && y.balance == 2 && t.r.Bin? && t.r.n.balance != 0
    modifies Nodes(t)`left, Nodes(t)`right, Nodes(t)`parent, Nodes(t)`balance
    ensures FixedTo(t, u, old(y.parent), w) && Height(u) == Height(t) - 1
  {
    LeanRight(t, y);
    if y.right.balance == 1 {
      SeparateLeft(t);
      u := RotatedLeft(t);
      w := TurnRightHigh(y, t);
    } else {
      assert y.right.balance == -1;
      SeparateRightLeft(t);
      u := RotatedRightLeft(t);
      w := DoubleRightLeft(y, t);
    }
  }

  /** Insertion: the left side of `y` has grown to be two higher. */
  method GrowLeftHigh(y: Node, ghost t: Tree) returns (w: Node, ghost u: Tree)
    requires Leaning(t, y) && y.balance == -2 && t.l.Bin? && t.l.n.balance != 0
    modifies Nodes(t)`left, Nodes(t)`right, Nodes(t)`parent, Nodes(t)`balance
    ensures FixedTo(t, u, old(y.parent), w) && Height(u) == Height(t) - 1
  {
    LeanLeft(t, y);
    if y.left.balance == -1 {
      SeparateRight(t);
      u := RotatedRight(t);
      w := TurnLeftHigh(y, t);
    } else {
      assert y.left.balance == 1;
      SeparateLeftRight(t);
      u := RotatedLeftRight(t);
      w := DoubleLeftRight(y, t);
    }
  }
}

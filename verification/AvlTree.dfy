/** The nodes of the parent-pointer AVL tree, the tree and path shapes they are read as,
    and the facts about those shapes that do not depend on the operations. */
module AvlTree {
  import opened StrOrder

  /** A `void *` stored as a value; 0 is the null pointer. */
  type Ptr = nat
  const NULL: Ptr := 0

  class Node {
    const key: Str
    var val: Ptr
    var left: Node?
    var right: Node?
    var parent: Node?
    var balance: int

    constructor (k: Str, up: Node?)
      ensures key == k && val == NULL && left == null && right == null && parent == up && balance == 0
    {
      key, val, left, right, parent, balance := k, NULL, null, null, up, 0;
    }
  }

  /** What a pointer to a subtree is read as. */
  datatype Tree = Leaf | Bin(l: Tree, n: Node, r: Tree)

  /** What surrounds a subtree: the path from its parent up to the root, each step with the sibling it leaves aside. */
  datatype Path = Top | InL(n: Node, r: Tree, up: Path) | InR(l: Tree, n: Node, up: Path)

  function TRoot(t: Tree): Node? {
    match t case Leaf => null case Bin(_, n, _) => n
  }

  ghost function Nodes(t: Tree): set<Node> {
    match t case Leaf => {} case Bin(l, n, r) => Nodes(l) + {n} + Nodes(r)
  }

  ghost function InOrder(t: Tree): seq<Node> {
    match t case Leaf => [] case Bin(l, n, r) => InOrder(l) + [n] + InOrder(r)
  }

  ghost function Max(a: nat, b: nat): nat {
    if a < b then b else a
  }

  ghost function Height(t: Tree): nat {
    match t case Leaf => 0 case Bin(l, _, r) => 1 + Max(Height(l), Height(r))
  }

  /** No node occurs twice. */
  ghost predicate Distinct(t: Tree) {
    match t
    case Leaf => true
    case Bin(l, n, r) => n !in Nodes(l) && n !in Nodes(r) && Nodes(l) !! Nodes(r) && Distinct(l) && Distinct(r)
  }

  /** The child pointers are those of `t`. */
  ghost predicate Down(t: Tree)
    reads Nodes(t)`left, Nodes(t)`right
  {
    match t
    case Leaf => true
    case Bin(l, n, r) => n.left == TRoot(l) && n.right == TRoot(r) && Down(l) && Down(r)
  }

  /** The parent pointers are those of `t`, with `outer` above its root. */
  ghost predicate Up(t: Tree, outer: Node?)
    reads Nodes(t)`parent
  {
    match t
    case Leaf => true
    case Bin(l, n, r) => n.parent == outer && Up(l, n) && Up(r, n)
  }

  /** Every stored balance is right height minus left height, and at most one in size. */
  ghost predicate Bal(t: Tree)
    reads Nodes(t)`balance
  {
    match t
    case Leaf => true
    case Bin(l, n, r) => n.balance == Height(r) - Height(l) && -1 <= n.balance <= 1 && Bal(l) && Bal(r)
  }

  // ---------- paths ----------

  ghost function Plug(c: Path, t: Tree): Tree {
    match c
    case Top => t
    case InL(n, r, up) => Plug(up, Bin(t, n, r))
    case InR(l, n, up) => Plug(up, Bin(l, n, t))
  }

  ghost function PNodes(c: Path): set<Node> {
    match c
    case Top => {}
    case InL(n, r, up) => {n} + Nodes(r) + PNodes(up)
    case InR(l, n, up) => {n} + Nodes(l) + PNodes(up)
  }

  /** The node directly above the hole. */
  function PParent(c: Path, outer: Node?): Node? {
    match c case Top => outer case InL(n, _, _) => n case InR(_, n, _) => n
  }

  ghost function Before(c: Path): seq<Node> {
    match c
    case Top => []
    case InL(n, r, up) => Before(up)
    case InR(l, n, up) => Before(up) + InOrder(l) + [n]
  }

  ghost function After(c: Path): seq<Node> {
    match c
    case Top => []
    case InL(n, r, up) => [n] + InOrder(r) + After(up)
    case InR(l, n, up) => After(up)
  }

  ghost predicate PDistinct(c: Path) {
    match c
    case Top => true
    case InL(n, r, up) => n !in Nodes(r) && n !in PNodes(up) && Nodes(r) !! PNodes(up) && Distinct(r) && PDistinct(up)
    case InR(l, n, up) => n !in Nodes(l) && n !in PNodes(up) && Nodes(l) !! PNodes(up) && Distinct(l) && PDistinct(up)
  }

  ghost predicate PDown(c: Path, hole: Node?)
    reads PNodes(c)`left, PNodes(c)`right
  {
    match c
    case Top => true
    case InL(n, r, up) => n.left == hole && n.right == TRoot(r) && Down(r) && PDown(up, n)
    case InR(l, n, up) => n.left == TRoot(l) && n.right == hole && Down(l) && PDown(up, n)
  }

  ghost predicate PUp(c: Path, outer: Node?)
    reads PNodes(c)`parent
  {
    match c
    case Top => true
    case InL(n, r, up) => n.parent == PParent(up, outer) && Up(r, n) && PUp(up, outer)
    case InR(l, n, up) => n.parent == PParent(up, outer) && Up(l, n) && PUp(up, outer)
  }

  /** The stored balances on the path and beside it are right when the subtree in the hole has height `h`. */
  ghost predicate PBal(c: Path, h: nat)
    reads PNodes(c)`balance
  {
    match c
    case Top => true
    case InL(n, r, up) =>
      n.balance == Height(r) - h && -1 <= n.balance <= 1 && Bal(r) && PBal(up, 1 + Max(h, Height(r)))
    case InR(l, n, up) =>
      n.balance == h - Height(l) && -1 <= n.balance <= 1 && Bal(l) && PBal(up, 1 + Max(Height(l), h))
  }

  lemma {:induction false} PlugSet(c: Path, t: Tree)
    ensures Nodes(Plug(c, t)) == Nodes(t) + PNodes(c)
  {
    match c
    case Top =>
    case InL(n, r, up) => PlugSet(up, Bin(t, n, r));
    case InR(l, n, up) => PlugSet(up, Bin(l, n, t));
  }

  lemma {:induction false} PlugOrder(c: Path, t: Tree)
    ensures InOrder(Plug(c, t)) == Before(c) + InOrder(t) + After(c)
  {
    match c
    case Top =>
    case InL(n, r, up) => PlugOrder(up, Bin(t, n, r));
    case InR(l, n, up) => PlugOrder(up, Bin(l, n, t));
  }

  lemma {:induction false} PlugDistinct(c: Path, t: Tree)
    ensures Distinct(Plug(c, t)) <==> Distinct(t) && PDistinct(c) && Nodes(t) !! PNodes(c)
  {
    match c
    case Top =>
    case InL(n, r, up) => PlugDistinct(up, Bin(t, n, r));
    case InR(l, n, up) => PlugDistinct(up, Bin(l, n, t));
  }

  lemma PlugNodes(c: Path, t: Tree)
    ensures Nodes(Plug(c, t)) == Nodes(t) + PNodes(c)
    ensures InOrder(Plug(c, t)) == Before(c) + InOrder(t) + After(c)
    ensures Distinct(Plug(c, t)) <==> Distinct(t) && PDistinct(c) && Nodes(t) !! PNodes(c)
  {
    PlugSet(c, t);
    PlugOrder(c, t);
    PlugDistinct(c, t);
  }

  lemma {:induction false} PlugRoot(c: Path, t: Tree, u: Tree)
    ensures TRoot(t) == TRoot(u) || c != Top ==> TRoot(Plug(c, t)) == TRoot(Plug(c, u))
    ensures if c == Top then Plug(c, t) == t && Plug(c, u) == u else TRoot(Plug(c, t)) in PNodes(c)
  {
    match c
    case Top =>
    case InL(n, r, up) => PlugRoot(up, Bin(t, n, r), Bin(u, n, r));
    case InR(l, n, up) => PlugRoot(up, Bin(l, n, t), Bin(l, n, u));
  }

  lemma {:induction false} PlugDown(c: Path, t: Tree)
    ensures Down(Plug(c, t)) <==> Down(t) && PDown(c, TRoot(t))
  {
    match c
    case Top =>
    case InL(n, r, up) => PlugDown(up, Bin(t, n, r));
    case InR(l, n, up) => PlugDown(up, Bin(l, n, t));
  }

  lemma {:induction false} PlugUp(c: Path, t: Tree, outer: Node?)
    ensures Up(Plug(c, t), outer) <==> Up(t, PParent(c, outer)) && PUp(c, outer)
  {
    match c
    case Top =>
    case InL(n, r, up) => PlugUp(up, Bin(t, n, r), outer);
    case InR(l, n, up) => PlugUp(up, Bin(l, n, t), outer);
  }

  lemma {:induction false} PlugBal(c: Path, t: Tree)
    ensures Bal(Plug(c, t)) <==> Bal(t) && PBal(c, Height(t))
  {
    match c
    case Top =>
    case InL(n, r, up) =>
      PlugBal(up, Bin(t, n, r));
      assert Height(Bin(t, n, r)) == 1 + Max(Height(t), Height(r));
    case InR(l, n, up) =>
      PlugBal(up, Bin(l, n, t));
      assert Height(Bin(l, n, t)) == 1 + Max(Height(l), Height(t));
  }

  ghost predicate WellFormed(t: Tree, outer: Node?)
    reads Nodes(t)`left, Nodes(t)`right, Nodes(t)`parent, Nodes(t)`balance
  {
    Down(t) && Up(t, outer) && Bal(t)
  }

  /** A path whose links and balances fit a subtree of height `h` headed by `hole`. */
  ghost predicate Fits(c: Path, hole: Node?, h: nat)
    reads PNodes(c)`left, PNodes(c)`right, PNodes(c)`parent, PNodes(c)`balance
  {
    PDown(c, hole) && PUp(c, null) && PBal(c, h)
  }

  /** A whole tree is well-formed exactly when the subtree in the hole and the path around it are. */
  lemma PlugWellFormed(c: Path, t: Tree)
    ensures WellFormed(Plug(c, t), null) <==> WellFormed(t, PParent(c, null)) && Fits(c, TRoot(t), Height(t))
  {
    PlugDown(c, t);
    PlugUp(c, t, null);
    PlugBal(c, t);
  }

  /** Every node of a tree is the root of a subtree in some path. */
  lemma {:induction false} Locate(t: Tree, x: Node) returns (c: Path, l: Tree, r: Tree)
    requires x in Nodes(t)
    ensures Plug(c, Bin(l, x, r)) == t
  {
    c, l, r := LocateFrom(t, x, Top);
  }

  lemma {:induction false} LocateFrom(t: Tree, x: Node, above: Path) returns (c: Path, l: Tree, r: Tree)
    requires x in Nodes(t)
    ensures Plug(c, Bin(l, x, r)) == Plug(above, t)
    decreases t
  {
    if t.n == x {
      c, l, r := above, t.l, t.r;
    } else if x in Nodes(t.l) {
      c, l, r := LocateFrom(t.l, x, InL(t.n, t.r, above));
    } else {
      c, l, r := LocateFrom(t.r, x, InR(t.l, t.n, above));
    }
  }

  lemma {:induction false} NodesInOrder(t: Tree)
    ensures Nodes(t) == set x | x in InOrder(t)
  {
    if t.Bin? {
      NodesInOrder(t.l);
      NodesInOrder(t.r);
      forall x ensures x in Nodes(t) <==> x in InOrder(t) {
        assert x in Nodes(t.l) <==> x in InOrder(t.l);
        assert x in Nodes(t.r) <==> x in InOrder(t.r);
      }
    }
  }

  // ---------- key order ----------

  ghost predicate Less(a: Node, b: Node) {
    StrCmp(a.key, b.key) < 0
  }

  ghost predicate Sorted(s: seq<Node>) {
    forall i, j | 0 <= i < j < |s| :: Less(s[i], s[j])
  }

  lemma LessIrreflexive(a: Node)
    ensures !Less(a, a)
  {
    StrCmpAntisymmetric(a.key, a.key);
  }

  lemma SortedParts(a: seq<Node>, b: seq<Node>)
    requires Sorted(a + b)
    ensures Sorted(a) && Sorted(b)
    ensures forall x, y | x in a && y in b :: Less(x, y)
    ensures forall x | x in a :: x !in b
  {
    var s := a + b;
    forall i, j | 0 <= i < j < |a| ensures Less(a[i], a[j]) {
      assert Less(s[i], s[j]);
    }
    forall i, j | 0 <= i < j < |b| ensures Less(b[i], b[j]) {
      assert Less(s[|a| + i], s[|a| + j]);
    }
    forall x, y | x in a && y in b ensures Less(x, y) {
      var i :| 0 <= i < |a| && a[i] == x;
      var j :| 0 <= j < |b| && b[j] == y;
      assert Less(s[i], s[|a| + j]);
    }
    forall x | x in a ensures x !in b {
      LessIrreflexive(x);
    }
  }

  lemma PlugSorted(c: Path, t: Tree)
    requires Sorted(InOrder(Plug(c, t)))
    ensures Sorted(InOrder(t))
  {
    PlugNodes(c, t);
    SortedParts(Before(c) + InOrder(t), After(c));
    SortedParts(Before(c), InOrder(t));
  }

  lemma SortedJoin(a: seq<Node>, x: Node, b: seq<Node>)
    requires Sorted(a + b)
    requires forall y | y in a :: Less(y, x)
    requires forall y | y in b :: Less(x, y)
    ensures Sorted(a + [x] + b)
  {
    var s, u := a + [x] + b, a + b;
    forall i, j | 0 <= i < j < |s| ensures Less(s[i], s[j]) {
      if i != |a| && j != |a| {
        var i', j' := if i < |a| then i else i - 1, if j < |a| then j else j - 1;
        assert s[i] == u[i'] && s[j] == u[j'];
        assert Less(u[i'], u[j']);
      }
    }
  }

  lemma SortedDrop(a: seq<Node>, x: Node, b: seq<Node>)
    requires Sorted(a + [x] + b)
    ensures Sorted(a + b)
  {
    var s, u := a + [x] + b, a + b;
    forall i, j | 0 <= i < j < |u| ensures Less(u[i], u[j]) {
      var i', j' := if i < |a| then i else i + 1, if j < |a| then j else j + 1;
      assert Less(s[i'], s[j']);
    }
  }

  lemma SortedAround(a: seq<Node>, n: Node, b: seq<Node>)
    requires Sorted(a + [n] + b)
    ensures Sorted(a) && Sorted(b)
    ensures forall x | x in a :: Less(x, n) && x != n
    ensures forall x | x in b :: Less(n, x) && x != n
    ensures forall x | x in a :: x !in b
  {
    SortedParts(a + [n], b);
    SortedParts(a, [n]);
    assert n in [n] && n in a + [n];
    LessIrreflexive(n);
    forall x | x in a ensures x !in b {
      assert x in a + [n];
    }
  }

  /** A key-ordered tree holds no node twice. */
  lemma {:induction false} SortedDistinct(t: Tree)
    requires Sorted(InOrder(t))
    ensures Distinct(t)
  {
    if t.Bin? {
      SortedAround(InOrder(t.l), t.n, InOrder(t.r));
      SortedDistinct(t.l);
      SortedDistinct(t.r);
      NodesInOrder(t.l);
      NodesInOrder(t.r);
      forall x | x in Nodes(t.l) ensures x !in Nodes(t.r) {
        assert x in InOrder(t.l);
      }
    }
  }

  // ---------- height ----------

  function Fib(n: nat): nat {
    if n < 2 then n else Fib(n - 1) + Fib(n - 2)
  }

  lemma {:induction false} FibMonotone(a: nat, b: nat)
    requires a <= b
    ensures Fib(a) <= Fib(b)
  {
    if a < b {
      FibMonotone(a, b - 1);
    }
  }

  /** A balanced tree of height `h` holds at least Fib(h+2)-1 nodes. */
  lemma {:induction false} HeightBound(t: Tree)
    requires Bal(t)
    ensures Fib(Height(t) + 2) <= |InOrder(t)| + 1
  {
    hide Fib; hide InOrder; hide Nodes;
    OrderLength(t);
    if t.Bin? {
      HeightBound(t.l);
      HeightBound(t.r);
      FibStep(Height(t.l), Height(t.r));
    } else {
      FibTwo();
    }
  }

  lemma OrderLength(t: Tree)
    ensures |InOrder(t)| == if t.Leaf? then 0 else |InOrder(t.l)| + 1 + |InOrder(t.r)|
  {
  }

  lemma FibTwo()
    ensures Fib(2) == 1
  {
  }

  lemma FibStep(a: nat, b: nat)
    requires -1 <= a - b <= 1
    ensures Fib(Max(a, b) + 3) <= Fib(a + 2) + Fib(b + 2)
  {
    FibMonotone(Max(a, b) + 1, a + 2);
    FibMonotone(Max(a, b) + 1, b + 2);
  }
}

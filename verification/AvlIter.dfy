/** Walking the map in key order, and taking it apart. */
module AvlIter {
  import opened AvlTree
  import opened AvlRotate
  import opened AvlShrink
  import opened AvlMap

  /** The leftmost node of a subtree. */
  method Least(p0: Node, ghost t0: Tree) returns (p: Node)
    requires TRoot(t0) == p0 && Down(t0)
    ensures InOrder(t0) != [] && p == InOrder(t0)[0]
  {
    p := p0;
    ghost var t := t0;
    while p.left != null
      invariant t.Bin? && t.n == p && Down(t) && InOrder(t0) != [] && InOrder(t0)[0] == InOrder(t)[0]
      decreases t
    {
      t := t.l;
      p := p.left;
    }
  }

  method Greatest(p0: Node, ghost t0: Tree) returns (p: Node)
    requires TRoot(t0) == p0 && Down(t0)
    ensures InOrder(t0) != [] && p == InOrder(t0)[|InOrder(t0)| - 1]
  {
    p := p0;
    ghost var t := t0;
    while p.right != null
      invariant t.Bin? && t.n == p && Down(t) && InOrder(t0) != []
      invariant InOrder(t0)[|InOrder(t0)| - 1] == InOrder(t)[|InOrder(t)| - 1]
      decreases t
    {
      t := t.r;
      p := p.right;
    }
  }

  /** The nearest ancestor reached from its left side: the next node when there is no right subtree. */
  method AscendLeft(p0: Node, ghost t0: Tree, ghost c0: Path) returns (q: Node?)
    requires TRoot(t0) == p0 && WellFormed(Plug(c0, t0), null) && Distinct(Plug(c0, t0))
    ensures q == if After(c0) == [] then null else After(c0)[0]
  {
    var p := p0;
    q := p.parent;
    ghost var c, t := c0, t0;
    Around1(c, t);
    while q != null && p != q.left
      invariant Plug(c, t) == Plug(c0, t0) && TRoot(t) == p && After(c) == After(c0)
      invariant WellFormed(Plug(c, t), null) && Distinct(Plug(c, t))
      invariant q == PParent(c, null) && (c != Top ==> (p == q.left <==> c.InL?))
      decreases c
    {
      c, t := c.up, Around(c, t);
      Around1(c, t);
      p := q;
      q := q.parent;
    }
  }

  method AscendRight(p0: Node, ghost t0: Tree, ghost c0: Path) returns (q: Node?)
    requires TRoot(t0) == p0 && WellFormed(Plug(c0, t0), null) && Distinct(Plug(c0, t0))
    ensures q == if Before(c0) == [] then null else Before(c0)[|Before(c0)| - 1]
  {
    var p := p0;
    q := p.parent;
    ghost var c, t := c0, t0;
    Around1(c, t);
    while q != null && p != q.right
      invariant Plug(c, t) == Plug(c0, t0) && TRoot(t) == p && Before(c) == Before(c0)
      invariant WellFormed(Plug(c, t), null) && Distinct(Plug(c, t))
      invariant q == PParent(c, null) && (c != Top ==> (p == q.right <==> c.InR?))
      decreases c
    {
      c, t := c.up, Around(c, t);
      Around1(c, t);
      p := q;
      q := q.parent;
    }
  }

  /** The links between the root of a subtree and the node above it. */
  lemma Around1(c: Path, t: Tree)
    requires WellFormed(Plug(c, t), null) && Distinct(Plug(c, t)) && t.Bin?
    ensures t.n.parent == PParent(c, null)
    ensures c != Top ==> (c.n.left == t.n <==> c.InL?) && (c.n.right == t.n <==> c.InR?)
  {
    hide Plug; hide Bal; hide PBal; hide Height; hide InOrder; hide Before; hide After;
    PlugWellFormed(c, t);
    PlugNodes(c, t);
    if c.InR? && c.l.Bin? {
      assert c.l.n in Nodes(c.l);
    }
    if c.InL? && c.r.Bin? {
      assert c.r.n in Nodes(c.r);
    }
  }

  /** A node stands at one index only. */
  lemma OneIndex(s: seq<Node>, i: nat, j: nat)
    requires Sorted(s) && i < |s| && j < |s| && i != j
    ensures s[i] != s[j]
  {
    LessIrreflexive(s[i]);
    if i < j {
      assert Less(s[i], s[j]);
    } else {
      assert Less(s[j], s[i]);
    }
  }

  ghost function NodeAt(s: seq<Node>, i: int): Node? {
    if 0 <= i < |s| then s[i] else null
  }

  class Iterator {
    var table: Map?
    var node: Node?

    constructor ()
      ensures table == null && node == null
    {
      table, node := null, null;
    }

    /** An iterator over a sound map, at one of its nodes or past an end. */
    ghost predicate Valid()
      reads this, table, if table != null then Nodes(table.tree) else {}
    {
      table != null ==> table.Valid() && (node != null ==> node in Nodes(table.tree))
    }

    /** `map_first`. */
    method First(m: Map?) returns (ret: int)
      requires m != null ==> m.Valid()
      modifies this
      ensures m == null ==> ret == -1 && table == old(table) && node == old(node)
      ensures m != null ==> ret == 0 && table == m && m.Valid() && node == NodeAt(InOrder(m.tree), 0)
    {
      if m == null {
        return -1;
      }
      table := m;
      node := m.root;
      if node != null {
        assert allocated(Nodes(m.tree));
        node := Least(node, m.tree);
      }
      ret := 0;
    }

    /** `map_last`. */
    method Last(m: Map?) returns (ret: int)
      requires m != null ==> m.Valid()
      modifies this
      ensures m == null ==> ret == -1 && table == old(table) && node == old(node)
      ensures m != null ==>
                ret == 0 && table == m && m.Valid() && node == NodeAt(InOrder(m.tree), |InOrder(m.tree)| - 1)
    {
      if m == null {
        return -1;
      }
      table := m;
      node := m.root;
      if node != null {
        assert allocated(Nodes(m.tree));
        node := Greatest(node, m.tree);
      }
      ret := 0;
    }

    /** `iterator_next`: one step up in key order. */
    method Next() returns (ret: int)
      requires Valid()
      modifies this`node
      ensures Valid() && ret == if table == null || old(node) == null then -1 else 0
      ensures ret == -1 ==> node == old(node)
      ensures ret == 0 ==> forall i | 0 <= i < |InOrder(table.tree)| && InOrder(table.tree)[i] == old(node) ::
                node == NodeAt(InOrder(table.tree), i + 1)
    {
      hide Nodes; hide PNodes; hide InOrder; hide Distinct; hide Plug; hide WellFormed; hide Sorted; hide Before;
      hide After;
      if table == null || node == null {
        return -1;
      }
      ghost var t, x := table.tree, node;
      ghost var c, l, r := Locate(t, x);
      SortedDistinct(t);
      OpenAt(c, l, x, r);
      OpenedLinks(c, l, x, r);
      Neighbours(c, l, x, r);
      assert allocated(Nodes(t));
      if node.right != null {
        node := Least(node.right, r);
      } else {
        node := AscendLeft(node, Bin(l, x, r), c);
      }
      AtSomeIndex(t);
      ret := 0;
    }

    /** `iterator_prev`: one step down in key order. */
    method Prev() returns (ret: int)
      requires Valid()
      modifies this`node
      ensures Valid() && ret == if table == null || old(node) == null then -1 else 0
      ensures ret == -1 ==> node == old(node)
      ensures ret == 0 ==> forall i | 0 <= i < |InOrder(table.tree)| && InOrder(table.tree)[i] == old(node) ::
                node == NodeAt(InOrder(table.tree), i - 1)
    {
      hide Nodes; hide PNodes; hide InOrder; hide Distinct; hide Plug; hide WellFormed; hide Sorted; hide Before;
      hide After;
      if table == null || node == null {
        return -1;
      }
      ghost var t, x := table.tree, node;
      ghost var c, l, r := Locate(t, x);
      SortedDistinct(t);
      OpenAt(c, l, x, r);
      OpenedLinks(c, l, x, r);
      Neighbours(c, l, x, r);
      assert allocated(Nodes(t));
      if node.left != null {
        node := Greatest(node.left, l);
      } else {
        node := AscendRight(node, Bin(l, x, r), c);
      }
      AtSomeIndex(t);
      ret := 0;
    }
  }

  /** `iterator_delete`: the node leaves the map and the iterator becomes invalid. */
  method DeleteAt(it: Iterator) returns (ret: Ptr)
    requires it.Valid()
    modifies it`node, it.table
    modifies if it.table != null then Nodes(it.table.tree) else {}
    ensures it.table == null || old(it.node) == null ==> ret == NULL && it.node == old(it.node)
    ensures it.table != null && old(it.node) != null ==>
              && it.node == null && it.table == old(it.table) && it.table.Valid() && ret == old(it.node.val)
              && it.table.Contents() == old(it.table.Contents()) - {KeyOf(old(it.node))}
  {
    if it.table == null || it.node == null {
      return NULL;
    }
    ret := it.table.DeleteNode(it.node);
    it.node := null;
  }

  /** From `map_first` until the iterator is spent: every node once, in ascending key order. */
  method Ascend(m: Map) returns (visited: seq<Node>)
    requires m.Valid()
    ensures m.Valid() && visited == InOrder(m.tree) && Sorted(visited)
  {
    hide InOrder; hide Nodes; hide WellFormed; hide Down; hide Up; hide Bal; hide Sorted;
    assert allocated(Nodes(m.tree));
    var it := new Iterator();
    var _ := it.First(m);
    visited := [];
    ghost var s := InOrder(m.tree);
    while it.node != null
      invariant m.Valid() && it.table == m && fresh(it) && |visited| <= |s| && visited == s[..|visited|]
      invariant it.node == NodeAt(s, |visited|)
      decreases |s| - |visited|
    {
      AtSomeIndex(m.tree);
      visited := visited + [it.node];
      var _ := it.Next();
    }
  }

  /** From `map_last` downwards: the same nodes in descending order. */
  method Descending(m: Map) returns (visited: seq<Node>)
    requires m.Valid()
    ensures m.Valid() && |visited| == |InOrder(m.tree)|
    ensures forall i | 0 <= i < |visited| :: visited[i] == InOrder(m.tree)[|visited| - 1 - i]
  {
    hide InOrder; hide Nodes; hide WellFormed; hide Sorted; hide Down; hide Up; hide Bal;
    assert allocated(Nodes(m.tree));
    var it := new Iterator();
    var _ := it.Last(m);
    visited := [];
    ghost var s := InOrder(m.tree);
    while it.node != null
      invariant m.Valid() && it.table == m && fresh(it) && |visited| <= |s|
      invariant forall i | 0 <= i < |visited| :: visited[i] == s[|s| - 1 - i]
      invariant it.node == NodeAt(s, |s| - 1 - |visited|)
      decreases |s| - |visited|
    {
      AtSomeIndex(m.tree);
      visited := visited + [it.node];
      var _ := it.Prev();
    }
  }

  /** Stepping forward and back returns to the same node, unless the step forward left the map. */
  method NextThenPrev(it: Iterator) returns (there: Node?)
    requires it.Valid() && it.table != null && it.node != null
    modifies it`node
    ensures it.Valid() && (there != null ==> it.node == old(it.node))
  {
    hide InOrder; hide Nodes; hide WellFormed;
    AtSomeIndex(it.table.tree);
    var _ := it.Next();
    there := it.node;
    if there != null {
      var _ := it.Prev();
    }
  }

  lemma AtSomeIndex(t: Tree)
    ensures forall x :: x in Nodes(t) ==> exists i :: 0 <= i < |InOrder(t)| && InOrder(t)[i] == x
    ensures forall i :: 0 <= i < |InOrder(t)| ==> InOrder(t)[i] in Nodes(t)
  {
    NodesInOrder(t);
  }

  /** The nodes before and after one node in the whole sequence. */
  lemma Neighbours(c: Path, l: Tree, x: Node, r: Tree)
    requires Sorted(InOrder(Plug(c, Bin(l, x, r))))
    ensures var s := InOrder(Plug(c, Bin(l, x, r)));
            forall i | 0 <= i < |s| && s[i] == x ::
              && NodeAt(s, i + 1) == (if r.Bin? then InOrder(r)[0] else if After(c) == [] then null else After(c)[0])
              && NodeAt(s, i - 1) == (if l.Bin? then InOrder(l)[|InOrder(l)| - 1]
                                      else if Before(c) == [] then null else Before(c)[|Before(c)| - 1])
  {
    hide Plug; hide Sorted; hide Before; hide After;
    var s, b := InOrder(Plug(c, Bin(l, x, r))), Bin(l, x, r);
    PlugOrder(c, b);
    var k := |Before(c)| + |InOrder(l)|;
    SeqAround(Before(c), InOrder(l), x, InOrder(r), After(c));
    forall i | 0 <= i < |s| && s[i] == x ensures i == k {
      if i != k {
        OneIndex(s, i, k);
      }
    }
  }

  lemma SeqAround(bf: seq<Node>, l: seq<Node>, x: Node, r: seq<Node>, af: seq<Node>)
    ensures var s, k := bf + (l + [x] + r) + af, |bf| + |l|;
            k < |s| && s[k] == x
            && NodeAt(s, k + 1) == (if r != [] then r[0] else if af == [] then null else af[0])
            && NodeAt(s, k - 1) == (if l != [] then l[|l| - 1] else if bf == [] then null else bf[|bf| - 1])
  {
  }

  // ---------- map_destroy ----------

  /** The non-null values of a sequence of nodes. */
  ghost function Values(s: seq<Node>): seq<Ptr>
    reads (set n | n in s)`val
  {
    if s == [] then []
    else Values(s[..|s| - 1]) + (if s[|s| - 1].val != NULL then [s[|s| - 1].val] else [])
  }

  ghost function RightSpine(t: Tree): nat {
    match t case Leaf => 0 case Bin(_, _, r) => 1 + RightSpine(r)
  }

  lemma {:induction false} SpineBound(t: Tree)
    ensures RightSpine(t) <= |InOrder(t)|
  {
    if t.Bin? {
      SpineBound(t.r);
    }
  }

  /** `map_destroy` with a destructor: rotates left subtrees up until a node has none, then frees it.
      `destroyed` are the calls to the destructor, `freed` the nodes handed back. */
  method Destroy(m: Map) returns (destroyed: seq<Ptr>, ghost freed: seq<Node>)
    requires m.Valid()
    modifies Nodes(m.tree)`left, Nodes(m.tree)`right
    ensures freed == InOrder(m.tree) && destroyed == Values(freed)
  {
    hide InOrder; hide Nodes; hide Distinct; hide RightSpine; hide Sorted;
    EmptyOrder();
    SortedDistinct(m.tree);
    NodesInOrder(m.tree);
    destroyed, freed := [], [];
    var p := m.root;
    ghost var t := m.tree;
    while p != null
      invariant p == TRoot(t) && Down(t) && Distinct(t) && Nodes(t) <= Nodes(m.tree)
      invariant freed + InOrder(t) == InOrder(m.tree) && destroyed == Values(freed)
      decreases |InOrder(t)|, |InOrder(t)| - RightSpine(t)
    {
      var q;
      PartsOf(t);
      if p.left == null {
        q := p.right;
        if p.val != NULL {
          destroyed := destroyed + [p.val];
        }
        FreeStep(freed, t);
        freed := freed + [p];
        t := t.r;
      } else {
        RotateStep(t);
        q := RotateUp(p, t);
        t := RotatedRight(t);
      }
      p := q;
    }
  }

  /** One rotation; the parent pointers are no longer kept. */
  method RotateUp(p: Node, ghost t: Tree) returns (q: Node)
    requires CanRotateRight(t) && t.n == p && Distinct(t) && Down(t)
    modifies {t.n, t.l.n}`left, {t.n, t.l.n}`right
    ensures q == t.l.n && Down(RotatedRight(t))
  {
    SeparateRight(t);
    q := p.left;
    p.left := q.right;
    q.right := p;
    assert Down(Bin(t.l.r, p, t.r));
  }

  lemma EmptyOrder()
    ensures InOrder(Leaf) == []
  {
  }

  lemma PartsOf(t: Tree)
    requires t.Bin? && Distinct(t)
    ensures Nodes(t) == Nodes(t.l) + {t.n} + Nodes(t.r) && Distinct(t.l) && Distinct(t.r)
  {
  }

  lemma FreeStep(freed: seq<Node>, t: Tree)
    requires t.Bin? && t.l == Leaf
    ensures freed + InOrder(t) == freed + [t.n] + InOrder(t.r)
    ensures |InOrder(t.r)| < |InOrder(t)|
    ensures Values(freed + [t.n]) == Values(freed) + if t.n.val != NULL then [t.n.val] else []
  {
    assert InOrder(t) == [t.n] + InOrder(t.r);
    assert (freed + [t.n])[..|freed|] == freed;
  }

  lemma RotateStep(t: Tree)
    requires CanRotateRight(t) && Distinct(t)
    ensures SameNodes(t, RotatedRight(t)) && RightSpine(t) < RightSpine(RotatedRight(t)) <= |InOrder(t)|
    ensures t.l.n in Nodes(t) && t.l.n != t.n
  {
    RotatedRightSameNodes(t);
    SpineBound(RotatedRight(t));
    assert RightSpine(Bin(t.l.r, t.n, t.r)) == RightSpine(t);
  }
}

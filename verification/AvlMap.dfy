/** The ordered map: a parent-pointer AVL tree from byte strings to pointers. */
module AvlMap {
  import opened StrOrder
  import opened AvlTree
  import opened AvlRotate
  import opened AvlGrow
  import opened AvlShrink

  // ---------- what a tree stores ----------

  lemma KeysDistinct(t: Tree)
    requires Sorted(InOrder(t))
    ensures forall a, b | a in Nodes(t) && b in Nodes(t) && a != b :: KeyOf(a) != KeyOf(b)
  {
    NodesInOrder(t);
    forall a, b | a in Nodes(t) && b in Nodes(t) && a != b
      ensures KeyOf(a) != KeyOf(b)
    {
      var s := InOrder(t);
      var i :| 0 <= i < |s| && s[i] == a;
      var j :| 0 <= j < |s| && s[j] == b;
      assert if i < j then Less(s[i], s[j]) else Less(s[j], s[i]);
      StrCmpAntisymmetric(a.key, b.key);
      StrCmpZero(a.key, b.key);
    }
  }

  /** The key of a node as the comparison sees it. */
  ghost function KeyOf(n: Node): Str {
    Canon(n.key)
  }

  ghost function Keys(t: Tree): set<Str> {
    set n | n in Nodes(t) :: KeyOf(n)
  }

  /** The finite map a tree stands for: visible key to value. */
  ghost function Model(t: Tree): (m: map<Str, Ptr>)
    requires Sorted(InOrder(t))
    reads Nodes(t)`val
    ensures m.Keys == Keys(t)
  {
    KeysDistinct(t);
    map n | n in Nodes(t) :: KeyOf(n) := n.val
  }

  lemma ModelEntries(t: Tree)
    requires Sorted(InOrder(t))
    ensures forall n | n in Nodes(t) :: KeyOf(n) in Model(t) && Model(t)[KeyOf(n)] == n.val
    ensures forall k | k in Model(t) :: exists n | n in Nodes(t) :: KeyOf(n) == k
  {
    KeysDistinct(t);
    assert Model(t).Keys == Keys(t);
  }

  /** The position of a key among the nodes around a hole. */
  ghost predicate Between(c: Path, key: Str) {
    match c
    case Top => true
    case InL(n, r, up) => StrCmp(key, n.key) < 0 && Between(up, key)
    case InR(l, n, up) => StrCmp(key, n.key) > 0 && Between(up, key)
  }

  lemma LessTransitive(a: Str, b: Str, c: Str)
    requires StrCmp(a, b) < 0 && StrCmp(b, c) < 0
    ensures StrCmp(a, c) < 0
  {
    StrCmpTransitive(a, b, c);
  }

  /** The path turns decide where the key belongs in the whole sequence. */
  lemma {:induction false} BetweenAll(c: Path, t: Tree, key: Str)
    requires Sorted(InOrder(Plug(c, t))) && Between(c, key)
    ensures forall x | x in Before(c) :: StrCmp(x.key, key) < 0
    ensures forall x | x in After(c) :: StrCmp(key, x.key) < 0
  {
    match c
    case Top =>
    case InL(n, r, up) =>
      BetweenAll(up, Bin(t, n, r), key);
      PlugSorted(up, Bin(t, n, r));
      SortedAround(InOrder(t), n, InOrder(r));
      forall x | x in InOrder(r) ensures StrCmp(key, x.key) < 0 {
        LessTransitive(key, n.key, x.key);
      }
    case InR(l, n, up) =>
      BetweenAll(up, Bin(l, n, t), key);
      PlugSorted(up, Bin(l, n, t));
      SortedAround(InOrder(l), n, InOrder(t));
      StrCmpAntisymmetric(key, n.key);
      forall x | x in InOrder(l) ensures StrCmp(x.key, key) < 0 {
        LessTransitive(x.key, n.key, key);
      }
  }

  /** A node the comparison calls equal to the key is the one entry for that key. */
  lemma Found(t: Tree, p: Node, key: Str)
    requires Sorted(InOrder(t)) && p in Nodes(t) && StrCmp(key, p.key) == 0
    ensures Canon(key) in Model(t) && Model(t)[Canon(key)] == p.val
  {
    StrCmpZero(key, p.key);
    ModelEntries(t);
    assert KeyOf(p) in Model(t);
  }

  /** A search that runs off the tree proves the key absent. */
  lemma Absent(c: Path, key: Str)
    requires Sorted(InOrder(Plug(c, Leaf))) && Between(c, key)
    ensures Canon(key) !in Model(Plug(c, Leaf))
  {
    var t := Plug(c, Leaf);
    NodesInOrder(t);
    PlugNodes(c, Leaf);
    BetweenAll(c, Leaf, key);
    ModelEntries(t);
    forall n | n in Nodes(t) ensures KeyOf(n) != Canon(key) {
      assert n in Before(c) || n in After(c);
      StrCmpZero(n.key, key);
      StrCmpAntisymmetric(n.key, key);
    }
  }

  /** What the end of a search says about the map. */
  lemma Located(c: Path, t: Tree, p: Node?, key: Str)
    requires Sorted(InOrder(Plug(c, t))) && p == TRoot(t)
    requires p == null ==> Between(c, key)
    requires p != null ==> StrCmp(key, p.key) == 0
    ensures var m := Model(Plug(c, t));
            (p != null <==> Canon(key) in m) && (p != null ==> m[Canon(key)] == p.val)
    ensures p != null ==> p in Nodes(Plug(c, t)) && Canon(p.key) == Canon(key)
  {
    if p == null {
      Absent(c, key);
    } else {
      PlugNodes(c, t);
      Found(Plug(c, t), p, key);
      StrCmpZero(key, p.key);
    }
  }

  lemma ModelAdd(t: Tree, u: Tree, n: Node)
    requires Sorted(InOrder(t)) && Sorted(InOrder(u)) && Nodes(u) == Nodes(t) + {n}
    ensures Model(u) == Model(t)[KeyOf(n) := n.val]
  {
    hide Model; hide Keys; hide KeyOf; hide Sorted; hide InOrder; hide Nodes;
    KeysDistinct(u);
    ModelEntries(t);
    ModelEntries(u);
    forall k | k in Model(u) ensures k in Model(t)[KeyOf(n) := n.val] && Model(u)[k] == Model(t)[KeyOf(n) := n.val][k] {
      var x :| x in Nodes(u) && KeyOf(x) == k;
    }
    forall k | k in Model(t) ensures k in Model(u) {
      var x :| x in Nodes(t) && KeyOf(x) == k;
    }
  }

  lemma ModelDrop(t: Tree, u: Tree, n: Node)
    requires Sorted(InOrder(t)) && Sorted(InOrder(u)) && n in Nodes(t) && Nodes(u) == Nodes(t) - {n}
    ensures Model(u) == Model(t) - {KeyOf(n)}
  {
    hide Model; hide Keys; hide KeyOf; hide Sorted; hide InOrder; hide Nodes;
    KeysDistinct(t);
    ModelEntries(t);
    ModelEntries(u);
    forall k | k in Model(u) ensures k in Model(t) && k != KeyOf(n) && Model(u)[k] == Model(t)[k] {
      var x :| x in Nodes(u) && KeyOf(x) == k;
    }
    forall k | k in Model(t) && k != KeyOf(n) ensures k in Model(u) {
      var x :| x in Nodes(t) && KeyOf(x) == k;
    }
  }

  /** The new leaf keeps the sequence sorted. */
  lemma LeafSorted(c: Path, n: Node)
    requires Sorted(InOrder(Plug(c, Leaf))) && Between(c, n.key)
    ensures Sorted(InOrder(Plug(c, Bin(Leaf, n, Leaf))))
    ensures |InOrder(Plug(c, Bin(Leaf, n, Leaf)))| == |InOrder(Plug(c, Leaf))| + 1
  {
    PlugNodes(c, Leaf);
    PlugNodes(c, Bin(Leaf, n, Leaf));
    BetweenAll(c, Leaf, n.key);
    assert Before(c) + InOrder(Leaf) + After(c) == Before(c) + After(c);
    assert InOrder(Bin(Leaf, n, Leaf)) == [n];
    SortedJoin(Before(c), n, After(c));
  }


  /** The node directly above the hole, as a set. */
  ghost function PTip(c: Path): (s: set<Node>)
    ensures s <= PNodes(c)
  {
    if c == Top then {} else {c.n}
  }

  lemma LoneLeaf(n: Node, q: Node?)
    requires n.left == null && n.right == null && n.parent == q && n.balance == 0
    ensures WellFormed(Bin(Leaf, n, Leaf), q)
  {
  }

  /** The place where a leaf will hang. */
  lemma HoleIn(c: Path)
    requires WellFormed(Plug(c, Leaf), null) && Sorted(InOrder(Plug(c, Leaf)))
    ensures Fits(c, null, 0) && PDistinct(c) && Nodes(Plug(c, Leaf)) == PNodes(c)
  {
    PlugWellFormed(c, Leaf);
    SortedDistinct(Plug(c, Leaf));
    PlugNodes(c, Leaf);
  }

  class Map {
    var root: Node?
    var count: nat
    ghost var tree: Tree

    ghost predicate Valid()
      reads this, Nodes(tree)
    {
      root == TRoot(tree) && count == |InOrder(tree)| && Sorted(InOrder(tree))
      && WellFormed(tree, null)
    }

    ghost function Contents(): map<Str, Ptr>
      requires Valid()
      reads this, Nodes(tree)
    {
      Model(tree)
    }

    constructor ()
      ensures Valid() && Contents() == map[] && fresh(Nodes(tree))
    {
      root, count, tree := null, 0, Leaf;
      new;
      ModelEntries(tree);
    }

    /** The descent of `map_find` and `map_remove`, with the path taken; `steps` counts the comparisons. */
    method Search(key: Str) returns (p: Node?, ghost steps: nat, ghost c: Path, ghost t: Tree)
      requires Valid()
      ensures Valid() && Contents() == old(Contents())
      ensures Plug(c, t) == tree && p == TRoot(t) && steps <= Height(tree)
      ensures p == null ==> t == Leaf && Between(c, key)
      ensures p != null ==> StrCmp(key, p.key) == 0
    {
      assert allocated(Nodes(tree));
      p, steps, c, t := root, 0, Top, tree;
      while p != null
        invariant Plug(c, t) == tree && Down(t) && p == TRoot(t) && Between(c, key)
        invariant steps + Height(t) <= Height(tree)
        decreases t
      {
        steps := steps + 1;
        var cmp := StrCmp(key, p.key);
        if cmp < 0 {
          c, t := InL(p, t.r, c), t.l;
          p := p.left;
        } else if cmp > 0 {
          c, t := InR(t.l, p, c), t.r;
          p := p.right;
        } else {
          return;
        }
      }
    }

    /** `map_find`. */
    method Find(key: Str) returns (p: Node?, ghost steps: nat)
      requires Valid()
      ensures Valid() && Contents() == old(Contents())
      ensures p != null <==> Canon(key) in Contents()
      ensures p != null ==> p in Nodes(tree) && Canon(p.key) == Canon(key) && Contents()[Canon(key)] == p.val
      ensures steps <= Height(tree) && Fib(steps + 2) <= count + 1
    {
      hide Nodes; hide Plug; hide InOrder; hide Sorted; hide Model; hide Down; hide Up; hide Bal; hide Height; hide Fib;
      hide Between; hide Canon; hide StrCmp;
      ghost var c, t;
      p, steps, c, t := Search(key);
      Located(c, t, p, key);
      HeightBound(tree);
      FibMonotone(steps + 2, Height(tree) + 2);
    }

    /** The descent of `map_get`: also finds `y`, the lowest node on the path that leans, or the root. */
    method Descend(key: Str) returns (p: Node?, q: Node?, y: Node?, dir: bool, ghost c: Path, ghost t: Tree)
      requires Valid()
      ensures Valid() && Contents() == old(Contents())
      ensures Plug(c, t) == tree && p == TRoot(t) && q == PParent(c, null)
      ensures p != null ==> StrCmp(key, p.key) == 0
      ensures p == null ==> Between(c, key) && t == Leaf && dir == c.InR?
      ensures p == null && root != null ==> y != null && EvenUpTo(c, y)
    {
      SortedDistinct(tree);
      assert allocated(Nodes(tree));
      y, dir, q, p := root, false, null, root;
      c, t := Top, tree;
      while p != null
        invariant Plug(c, t) == tree && Down(t) && p == TRoot(t) && q == PParent(c, null) && Between(c, key)
        invariant Valid() && dir == c.InR? && (if c == Top then y == root == p else y in PNodes(c) && EvenUpTo(c, y))
        decreases t
      {
        var cmp := StrCmp(key, p.key);
        if cmp == 0 {
          return;
        }
        PlugNodes(c, t);
        dir := cmp > 0;
        if p.balance != 0 {
          y := p;
        }
        c, t := if dir then InR(t.l, p, c) else InL(p, t.r, c), if dir then t.r else t.l;
        q := p;
        p := if dir then p.right else p.left;
      }
    }

    /** `q->avl_link[dir] = x`; a null `q` stands for the pseudo-node whose left link is the root pointer. */
    method Relink(q: Node?, dir: bool, x: Node?, ghost c: Path, ghost hole: Node?)
      requires q == PParent(c, null) && dir == c.InR? && PDistinct(c) && PDown(c, hole)
      modifies this`root, PTip(c)`left, PTip(c)`right
      ensures PDown(c, x) && root == if c == Top then x else old(root)
    {
      if q == null {
        root := x;
      } else if !dir {
        q.left := x;
      } else {
        q.right := x;
      }
    }

    /** The new node, hung below the end of the search. */
    method Attach(key: Str, q: Node?, dir: bool, ghost c: Path) returns (n: Node)
      requires Valid() && Plug(c, Leaf) == tree && Between(c, key) && q == PParent(c, null) && dir == c.InR?
      modifies this`root, this`count, PTip(c)`left, PTip(c)`right
      ensures fresh(n) && n.key == key && n.val == NULL && n.balance == 0
      ensures WellFormed(Bin(Leaf, n, Leaf), q) && Fits(c, n, 0) && n !in PNodes(c)
      ensures root == TRoot(Plug(c, Bin(Leaf, n, Leaf))) && count == old(count) + 1
    {
      hide Between; hide Sorted; hide InOrder; hide Plug; hide PDown; hide PUp; hide PBal; hide PDistinct; hide Down;
      hide Up; hide Bal;
      HoleIn(c);
      assert allocated(PNodes(c));
      n := new Node(key, q);
      count := count + 1;
      Relink(q, dir, n, c, null);
      LoneLeaf(n, q);
      PlugRoot(c, Leaf, Bin(Leaf, n, Leaf));
    }

    /** The rotation at `y`, if its balance has become two, and the relinking of the rotated subtree. */
    method Restore(y: Node, ghost c: Path, ghost t: Tree, ghost h: nat) returns (ghost u: Tree)
      requires t.Bin? && t.n == y && Leaning(t, y) && Reached(c, t, y, h)
      requires Hung(c, y) && PBal(c, h) && Distinct(Plug(c, t))
      requires root == TRoot(Plug(c, t))
      modifies this`root, PTip(c)`left, PTip(c)`right, Nodes(t)`left, Nodes(t)`right, Nodes(t)`parent, Nodes(t)`balance
      ensures SameNodes(t, u) && WellFormed(Plug(c, u), null) && root == TRoot(Plug(c, u))
    {
      hide Reached; hide Leaning; hide Distinct; hide Nodes; hide PNodes; hide PDistinct; hide Plug;
      PlugNodes(c, t);
      assert allocated(PNodes(c));
      if c != Top {
        HungUp(c, t);
      }
      var w, rotated;
      w, rotated, u := RotateAt(y, c, t, h);
      PlugRoot(c, t, u);
      if rotated {
        assert allocated(Nodes(u));
        Relink(w.parent, w.parent != null && y != w.parent.left, w, c, y);
        assert WellFormed(u, PParent(c, null));
      }
      assert Fits(c, w, Height(u));
      PlugWellFormed(c, u);
    }

    /** `map_get`: the node for the key, inserted with a null value if the key was absent. */
    method Get(key: Str) returns (n: Node)
      requires Valid()
      modifies this, Nodes(tree)`left, Nodes(tree)`right, Nodes(tree)`parent, Nodes(tree)`balance
      ensures Valid() && n in Nodes(tree) && Canon(n.key) == Canon(key)
      ensures Canon(key) in old(Contents()) ==>
                tree == old(tree) && count == old(count) && Contents() == old(Contents())
      ensures Canon(key) !in old(Contents()) ==>
                fresh(n) && n.key == key && Nodes(tree) == old(Nodes(tree)) + {n} && count == old(count) + 1
                && Contents() == old(Contents())[Canon(key) := NULL]
    {
      ghost var c, t;
      var p, q, y, dir;
      p, q, y, dir, c, t := Descend(key);
      Located(c, t, p, key);
      if p != null {
        n := p;
        return;
      }
      n := Insert(key, q, y, dir, c);
    }

    /** The rest of `map_get`, for a key the descent did not find. */
    method Insert(key: Str, q: Node?, y: Node?, dir: bool, ghost c: Path) returns (n: Node)
      requires Valid() && Plug(c, Leaf) == tree && Between(c, key) && q == PParent(c, null) && dir == c.InR?
      requires root != null ==> y != null && EvenUpTo(c, y)
      modifies this, Nodes(tree)`left, Nodes(tree)`right, Nodes(tree)`parent, Nodes(tree)`balance
      ensures Valid() && fresh(n) && n.key == key && n.val == NULL
      ensures Nodes(tree) == old(Nodes(tree)) + {n} && count == old(count) + 1
      ensures Contents() == old(Contents())[Canon(key) := NULL]
    {
      hide Nodes; hide PNodes; hide InOrder; hide Distinct; hide PDistinct; hide Plug; hide Between;
      hide Down; hide Up; hide Bal; hide PDown; hide PUp; hide PBal; hide EvenUpTo; hide Sorted;
      hide Model; hide Keys; hide WellFormed; hide Fits; hide Height;
      ghost var t0, u := tree, Leaf;
      EmptyHole(c);
      assert allocated(Nodes(t0)) && allocated(PNodes(c));
      n := Attach(key, q, dir, c);
      LeafSorted(c, n);
      WithLeaf(c, n);
      if root == n {
        u := Plug(c, Bin(Leaf, n, Leaf));
      } else {
        u := Raise(n, y, c);
      }
      tree := u;
      ModelAdd(t0, tree, n);
    }

    /** From the new leaf up to `y`, and the rotation there. */
    method Raise(n: Node, y: Node, ghost c: Path) returns (ghost u: Tree)
      requires Planted(c, n) && c != Top && EvenUpTo(c, y) && n.balance == 0
      requires root == TRoot(Plug(c, Bin(Leaf, n, Leaf)))
      modifies this`root, (PNodes(c) + {n})`left, (PNodes(c) + {n})`right
      modifies (PNodes(c) + {n})`parent, (PNodes(c) + {n})`balance
      ensures WellFormed(u, null) && root == TRoot(u)
      ensures InOrder(u) == InOrder(Plug(c, Bin(Leaf, n, Leaf))) && Nodes(u) == PNodes(c) + {n}
    {
      hide Nodes; hide PNodes; hide InOrder; hide Distinct; hide PDistinct; hide Plug; hide Planted; hide Hung;
      hide Down; hide Up; hide Bal; hide PDown; hide PUp; hide PBal; hide EvenUpTo; hide Reached; hide Leaning;
      hide Climbing; hide SameNodes; hide WellFormed;
      WithLeaf(c, n);
      BeforeClimb(c, n, y);
      assert allocated(Nodes(Plug(c, Bin(Leaf, n, Leaf))));
      ghost var c1, t, h := Climb(n, y, c);
      AfterClimb(c, n, c1, t, y, h);
      ghost var v := Restore(y, c1, t, h);
      SamePlugged(c1, t, v);
      u := Plug(c1, v);
    }

    /** `q->avl_link[dir] = w` after a rotation has put `w` in the place of `y`. */
    method Rehang(q: Node?, dir: bool, y: Node, w: Node, ghost c: Path, ghost t: Tree, ghost u: Tree, ghost done: bool)
      requires c != Top && q == PParent(c.up, null) && dir == c.up.InR? && PDistinct(c.up)
               && Fits(c.up, y, HeightAround(c, Height(t) + 1))
      requires Settled(c, t, u, w, done) && Nodes(Around(c, t)) !! PNodes(c.up) && c.n == y
      requires root == TRoot(Plug(c.up, Around(c, t)))
      modifies this`root, PTip(c.up)`left, PTip(c.up)`right
      ensures Fits(c.up, w, HeightAround(c, Height(t) + 1)) && Settled(c, t, u, w, done)
      ensures root == TRoot(Plug(c.up, u))
    {
      hide Nodes; hide PNodes; hide InOrder; hide Distinct; hide Settled; hide PBal; hide Plug;
      PlugRoot(c.up, Around(c, t), u);
      SettledRoot(c, t, u, w, done);
      assert allocated(PNodes(c.up));
      if w != y {
        assert allocated(Nodes(u));
        Relink(q, dir, w, c.up, y);
      }
    }

    /** The walk of `delete_node` back up to the root. */
    method Sink(q0: Node?, dir0: bool, ghost c0: Path, ghost t0: Tree) returns (ghost u: Tree)
      requires Sunk(c0, t0) && Distinct(Plug(c0, t0)) && q0 == PParent(c0, null) && dir0 == c0.InR?
      requires root == TRoot(Plug(c0, t0))
      modifies this`root, Nodes(Plug(c0, t0))`left, Nodes(Plug(c0, t0))`right
      modifies Nodes(Plug(c0, t0))`parent, Nodes(Plug(c0, t0))`balance
      ensures WellFormed(u, null) && root == TRoot(u)
      ensures InOrder(u) == InOrder(Plug(c0, t0)) && Nodes(u) == Nodes(Plug(c0, t0))
    {
      hide Nodes; hide PNodes; hide InOrder; hide Distinct; hide PDistinct; hide Plug; hide Sunk; hide Settled;
      hide Fits; hide WellFormed; hide PDown; hide PUp; hide PBal;
      var q, dir, done := q0, dir0, false;
      ghost var c, t := c0, t0;
      ghost var all := Nodes(Plug(c0, t0));
      assert allocated(all);
      while q != null && !done
        invariant Distinct(Plug(c, t)) && root == TRoot(Plug(c, t)) && q == PParent(c, null) && dir == c.InR?
        invariant InOrder(Plug(c, t)) == InOrder(Plug(c0, t0)) && Nodes(Plug(c, t)) == all
        invariant if done then WellFormed(Plug(c, t), null) else Sunk(c, t)
        decreases c
      {
        OneUpNodes(c, t);
        OneUp(c, t);
        var y := q;
        q := y.parent;
        var side := if q == null then root != y else q.left != y;
        assert allocated(Nodes(Around(c, t))) && allocated(PNodes(c.up));
        var w;
        ghost var b;
        if !dir {
          w, done, b := SettleLeft(y, c, t);
        } else {
          w, done, b := SettleRight(y, c, t);
        }
        Rehang(q, side, y, w, c, t, b, done);
        dir := side;
        SettledPlug(c, t, b, w, done);
        c, t := c.up, b;
      }
      if !done {
        SunkTop(t);
      }
      u := Plug(c, t);
    }

    /** `p` has no right child: its left subtree takes its place. */
    method SpliceLeft(p: Node, q: Node?, dir: bool, ghost c: Path, ghost l: Tree)
      requires Opened(c, l, p, Leaf) && q == PParent(c, null) && dir == c.InR?
      requires root == TRoot(Plug(c, Bin(l, p, Leaf)))
      modifies this`root, PTip(c)`left, PTip(c)`right, Tip(l)`parent
      ensures Sunk(c, l) && root == TRoot(Plug(c, l))
    {
      hide Plug; hide Down; hide Bal; hide Height; hide Distinct;
      OpenedLeft(c, l, p);
      assert allocated(Nodes(l)) && allocated(PNodes(c));
      Relink(q, dir, p.left, c, p);
      Adopt(p.left, p.parent, l, p);
      PlugRoot(c, Bin(l, p, Leaf), l);
    }

    /** The heir `s` takes the place of `p`: its left subtree, its parent and its balance. */
    method Inherit(p: Node, s: Node, q: Node?, dir: bool, ghost c: Path, ghost l: Tree, ghost h: nat)
      requires OpenedAbove(c, l, p, h) && q == PParent(c, null) && dir == c.InR?
      requires s != p && s !in Nodes(l) && s !in PNodes(c)
      modifies this`root, PTip(c)`left, PTip(c)`right, Tip(l)`parent, s`left, s`parent, s`balance
      ensures Fits(InR(l, s, c), s.right, h) && root == if c == Top then s else old(root)
    {
      hide Nodes; hide PNodes; hide Down; hide Up; hide Bal; hide Distinct; hide PDistinct; hide Height;
      assert allocated(Nodes(l)) && allocated(PNodes(c));
      s.left := p.left;
      Relink(q, dir, s, c, p);
      s.parent := p.parent;
      Adopt(s.left, s, l, p);
      s.balance := p.balance;
    }

    /** The right child `r` has no left child: it takes the place of `p`. */
    method SpliceRight(p: Node, r: Node, q: Node?, dir: bool, ghost c: Path, ghost l: Tree, ghost rr: Tree)
      requires Opened(c, l, p, Bin(Leaf, r, rr)) && q == PParent(c, null) && dir == c.InR?
      requires root == TRoot(Plug(c, Bin(l, p, Bin(Leaf, r, rr))))
      modifies this`root, PTip(c)`left, PTip(c)`right, Tip(l)`parent, r`left, r`parent, r`balance
      ensures Sunk(InR(l, r, c), rr) && root == TRoot(Plug(InR(l, r, c), rr))
    {
      HeirRight(c, l, p, r, rr);
      assert allocated(Nodes(rr));
      Inherit(p, r, q, dir, c, l, Height(rr) + 1);
      PlugRoot(c, Bin(l, p, Bin(Leaf, r, rr)), Bin(l, r, rr));
    }

    /** The next key after `p` is the leftmost node `s` of its right subtree: it takes the place of `p`. */
    method SpliceMin(p: Node, r0: Node, q: Node?, dir: bool, ghost c: Path, ghost l: Tree, ghost r: Tree)
      returns (rr: Node, ghost d: Path, ghost t: Tree)
      requires Opened(c, l, p, r) && q == PParent(c, null) && dir == c.InR? && r.Bin? && r.l.Bin? && r0 == r.n
      requires root == TRoot(Plug(c, Bin(l, p, r)))
      modifies this`root, PTip(c)`left, PTip(c)`right, Tip(l)`parent
      modifies Nodes(r)`left, Nodes(r)`right, Nodes(r)`parent, Nodes(r)`balance
      ensures d.InL? && d.n == rr && Sunk(d, t) && root == TRoot(Plug(d, t))
      ensures PNodes(d) + Nodes(t) == PNodes(c) + Nodes(l) + Nodes(r)
      ensures InOrder(Plug(d, t)) == Before(c) + InOrder(l) + InOrder(r) + After(c)
    {
      hide Plug; hide Nodes; hide PNodes; hide InOrder; hide Distinct; hide PDistinct; hide Down; hide Up; hide Bal;
      hide PDown; hide PUp; hide PBal; hide Height; hide PHeight; hide PRoot; hide Opened; hide OpenedAbove;
      hide Extend; hide Before; hide After; hide Sunk; hide Fits;
      hide Tip; hide PTip;
      OpenedApart(c, l, p, r);
      var s;
      ghost var e;
      assert allocated(Nodes(r)) && allocated(Nodes(l)) && allocated(PNodes(c));
      s, e, t := Leftmost(r0, r);
      HeirMinNodes(c, l, p, e, s, t);
      HeirMinLinks(p, e, s, t);
      rr := s.parent;
      assert allocated(PNodes(e)) && allocated(Nodes(t)) && allocated(Nodes(l)) && allocated(PNodes(c));
      DetachMin(s, rr, p, e, t, r);
      Inherit(p, s, q, dir, c, l, Height(r));
      d := Extend(e, InR(l, s, c));
      ExtendFits(e, InR(l, s, c), TRoot(t), Height(t) + 1);
      ExtendPlug(e, InR(l, s, c), t);
      SplicedMin(c, l, e, s, t);
      SplicedRoot(c, l, p, r, e, s, t);
      SunkAt(d, t, rr);
    }

    /** The splice of `delete_node`, all three cases: it leaves a hole one lower, below `q` on side `dir`. */
    method Splice(p: Node, ghost c: Path, ghost l: Tree, ghost r: Tree)
      returns (q: Node?, dir: bool, ghost d: Path, ghost t: Tree)
      requires Valid() && tree == Plug(c, Bin(l, p, r))
      modifies this`root, Nodes(tree)`left, Nodes(tree)`right, Nodes(tree)`parent, Nodes(tree)`balance
      ensures Sunk(d, t) && q == PParent(d, null) && dir == d.InR? && root == TRoot(Plug(d, t))
      ensures InOrder(Plug(d, t)) == Before(c) + InOrder(l) + InOrder(r) + After(c)
      ensures Nodes(Plug(d, t)) <= Nodes(tree)
    {
      hide Plug; hide PNodes; hide InOrder; hide Distinct; hide PDistinct; hide Down; hide Up; hide Bal;
      hide PDown; hide PUp; hide PBal; hide Height; hide Sunk; hide WellFormed; hide Fits; hide Extend; hide Sorted;
      SortedDistinct(tree);
      OpenAt(c, l, p, r);
      OpenedLinks(c, l, p, r);
      q := p.parent;
      dir := q != null && p != q.left;
      if p.right == null {
        SplicedLeft(c, l);
        SpliceLeft(p, q, dir, c, l);
        d, t := c, l;
      } else {
        var r0 := p.right;
        if r0.left == null {
          d, t := InR(l, r0, c), r.r;
          SplicedRight(c, l, r0, r.r);
          SpliceRight(p, r0, q, dir, c, l, r.r);
          q, dir := r0, true;
        } else {
          q, d, t := SpliceMin(p, r0, q, dir, c, l, r);
          PlugNodes(d, t);
          dir := false;
        }
      }
    }

    /** `delete_node`. */
    method DeleteNode(p: Node) returns (val: Ptr)
      requires Valid() && p in Nodes(tree)
      modifies this, Nodes(tree)`left, Nodes(tree)`right, Nodes(tree)`parent, Nodes(tree)`balance
      ensures Valid() && Nodes(tree) == old(Nodes(tree)) - {p} && count == old(count) - 1
      ensures val == p.val && Contents() == old(Contents()) - {KeyOf(p)}
    {
      hide Plug; hide PNodes; hide Nodes; hide InOrder; hide Distinct; hide Down; hide Up; hide Bal; hide Sunk;
      hide Sorted;
      hide Model; hide Keys; hide WellFormed; hide Before; hide After;
      ghost var t0 := tree;
      ghost var c, l, r := Locate(t0, p);
      assert allocated(Nodes(t0));
      val := p.val;
      var q, dir;
      ghost var d, t;
      q, dir, d, t := Splice(p, c, l, r);
      SplicedSorted(c, l, p, r, Plug(d, t));
      ghost var u := Sink(q, dir, d, t);
      count := count - 1;
      tree := u;
      ModelDrop(t0, u, p);
    }

    /** `map_remove`. */
    method Remove(key: Str) returns (val: Ptr)
      requires Valid()
      modifies this, Nodes(tree)`left, Nodes(tree)`right, Nodes(tree)`parent, Nodes(tree)`balance
      ensures Valid() && Contents() == old(Contents()) - {Canon(key)}
      ensures val == if Canon(key) in old(Contents()) then old(Contents())[Canon(key)] else NULL
      ensures Nodes(tree) <= old(Nodes(tree))
      ensures count == if Canon(key) in old(Contents()) then old(count) - 1 else old(count)
    {
      if root == null {
        ModelEntries(tree);
        return NULL;
      }
      var p;
      ghost var steps, c, t;
      p, steps, c, t := Search(key);
      Located(c, t, p, key);
      if p == null {
        return NULL;
      }
      val := DeleteNode(p);
    }

    /** `map_put`: the value replaced, or null if there was none or it was the same. */
    method Put(key: Str, item: Ptr) returns (ret: Ptr)
      requires Valid()
      modifies this, Nodes(tree)
      ensures Valid() && Contents() == old(Contents())[Canon(key) := item]
      ensures var before := if Canon(key) in old(Contents()) then old(Contents())[Canon(key)] else NULL;
              ret == if before == item then NULL else before
      ensures fresh(Nodes(tree) - old(Nodes(tree)))
      ensures count == if Canon(key) in old(Contents()) then old(count) else old(count) + 1
    {
      hide Model; hide Keys; hide Nodes; hide WellFormed; hide Sorted; hide InOrder;
      var p := Get(key);
      ghost var m := Contents();
      ModelEntries(tree);
      ret := p.val;
      p.val := item;
      ModelWrite(tree, p, m);
      if ret == item {
        ret := NULL;
      }
    }

    method Size() returns (n: nat)
      requires Valid()
      ensures Valid() && Contents() == old(Contents()) && n == |Contents()|
    {
      n := count;
      ModelSize(tree);
    }
  }

  /** Writing through the pointer to one value. */
  lemma ModelWrite(t: Tree, p: Node, m: map<Str, Ptr>)
    requires Sorted(InOrder(t)) && p in Nodes(t) && m.Keys == Keys(t)
    requires forall n | n in Nodes(t) && n != p :: KeyOf(n) in m && m[KeyOf(n)] == n.val
    ensures Model(t) == m[KeyOf(p) := p.val]
  {
    hide Model; hide Keys; hide KeyOf; hide Sorted; hide InOrder; hide Nodes;
    KeysDistinct(t);
    ModelEntries(t);
    forall k | k in Model(t) ensures k in m && Model(t)[k] == m[KeyOf(p) := p.val][k] {
      var x :| x in Nodes(t) && KeyOf(x) == k;
    }
    assert Model(t).Keys == m.Keys;
  }

  lemma {:induction false} DistinctSize(t: Tree)
    requires Distinct(t)
    ensures |Nodes(t)| == |InOrder(t)|
  {
    if t.Bin? {
      DistinctSize(t.l);
      DistinctSize(t.r);
    }
  }

  lemma {:induction false} ImageSize(s: set<Node>, ks: set<Str>)
    requires forall a, b | a in s && b in s && a != b :: KeyOf(a) != KeyOf(b)
    requires ks == set n | n in s :: KeyOf(n)
    ensures |ks| == |s|
  {
    hide KeyOf;
    if s != {} {
      var x :| x in s;
      var rest := ks - {KeyOf(x)};
      assert rest == set n | n in s - {x} :: KeyOf(n);
      ImageSize(s - {x}, rest);
      assert KeyOf(x) in ks;
    }
  }

  lemma ModelSize(t: Tree)
    requires Sorted(InOrder(t))
    ensures |Model(t)| == |InOrder(t)|
  {
    KeysDistinct(t);
    SortedDistinct(t);
    DistinctSize(t);
    ImageSize(Nodes(t), Keys(t));
    assert |Model(t)| == |Model(t).Keys|;
  }

  // ---------- whole runs ----------

  datatype Op = OFind(key: Str) | OGet(key: Str) | OPut(key: Str, item: Ptr) | ORemove(key: Str) | OSize

  datatype Reply = NoSlot | Slot(val: Ptr) | Value(ptr: Ptr) | Count(n: nat)

  /** What each operation does to a plain finite map and what it answers. */
  function Meaning(m: map<Str, Ptr>, op: Op): (map<Str, Ptr>, Reply) {
    match op
    case OFind(key) => (m, if Canon(key) in m then Slot(m[Canon(key)]) else NoSlot)
    case OGet(key) =>
      if Canon(key) in m then (m, Slot(m[Canon(key)])) else (m[Canon(key) := NULL], Slot(NULL))
    case OPut(key, item) =>
      var before := if Canon(key) in m then m[Canon(key)] else NULL;
      (m[Canon(key) := item], Value(if before == item then NULL else before))
    case ORemove(key) => (m - {Canon(key)}, Value(if Canon(key) in m then m[Canon(key)] else NULL))
    case OSize => (m, Count(|m|))
  }

  function Meanings(ops: seq<Op>): (map<Str, Ptr>, seq<Reply>) {
    if ops == [] then (map[], [])
    else
      var (m, replies) := Meanings(ops[..|ops| - 1]);
      var (m', reply) := Meaning(m, ops[|ops| - 1]);
      (m', replies + [reply])
  }

  lemma MeaningsSnoc(ops: seq<Op>, op: Op)
    ensures var (m, replies) := Meanings(ops);
            var (m', reply) := Meaning(m, op);
            Meanings(ops + [op]) == (m', replies + [reply])
  {
    assert (ops + [op])[..|ops|] == ops;
  }

  method Perform(m: Map, op: Op) returns (reply: Reply)
    requires m.Valid()
    modifies m, Nodes(m.tree)
    ensures m.Valid() && fresh(Nodes(m.tree) - old(Nodes(m.tree)))
    ensures (m.Contents(), reply) == Meaning(old(m.Contents()), op)
  {
    hide Model; hide Nodes; hide Canon;
    match op
    case OFind(key) =>
      var p;
      ghost var steps;
      p, steps := m.Find(key);
      reply := if p == null then NoSlot else Slot(p.val);
    case OGet(key) =>
      var p := m.Get(key);
      StrCmpZero(key, p.key);
      Found(m.tree, p, key);
      reply := Slot(p.val);
    case OPut(key, item) =>
      var v := m.Put(key, item);
      reply := Value(v);
    case ORemove(key) =>
      var v := m.Remove(key);
      reply := Value(v);
    case OSize =>
      var n := m.Size();
      reply := Count(n);
  }

  /** Any sequence of operations on the tree answers as the plain finite map does. */
  method Run(ops: seq<Op>) returns (m: Map, replies: seq<Reply>)
    ensures fresh(m) && m.Valid() && (m.Contents(), replies) == Meanings(ops)
  {
    hide Model; hide Nodes; hide Canon; hide Meaning; hide WellFormed; hide Sorted; hide InOrder;
    m := new Map();
    replies := [];
    for i := 0 to |ops|
      invariant fresh(m) && m.Valid() && fresh(Nodes(m.tree)) && (m.Contents(), replies) == Meanings(ops[..i])
    {
      ghost var before := Nodes(m.tree);
      label call:
      var reply := Perform(m, ops[i]);
      forall n | n in Nodes(m.tree) ensures fresh(n) {
        if n !in before {
          assert fresh@call(n);
        }
      }
      MeaningsSnoc(ops[..i], ops[i]);
      replies := replies + [reply];
      assert ops[..i + 1] == ops[..i] + [ops[i]];
    }
    assert ops[..|ops|] == ops;
  }
}

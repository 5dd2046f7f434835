/** The heap order of the dispatcher's array, as sequences of tasks, and what one turn of each sift loop does to it. */
module TaskHeap {

  /** `heap_node_t`: a priority and the task itself. */
  datatype Task = Task(priority: int, job: int)

  function Parent(i: nat): nat
    requires i > 0
  {
    (i - 1) / 2
  }

  /** No task has a higher priority than its parent. */
  ghost predicate HeapOk(h: seq<Task>) {
    forall i | 0 < i < |h| :: h[i].priority <= h[Parent(i)].priority
  }

  /** Heap order but between `c` and its parent; the children of `c` suit that parent. */
  ghost predicate UpOk(h: seq<Task>, c: nat) {
    c < |h|
    && (forall i | 0 < i < |h| && i != c :: h[i].priority <= h[Parent(i)].priority)
    && (c > 0 ==> forall i | 0 < i < |h| && Parent(i) == c :: h[i].priority <= h[Parent(c)].priority)
  }

  /** Heap order but between `c` and its children; those suit the parent of `c`. */
  ghost predicate DownOk(h: seq<Task>, c: nat) {
    (forall i | 0 < i < |h| && Parent(i) != c :: h[i].priority <= h[Parent(i)].priority)
    && (0 < c < |h| ==> forall i | 0 < i < |h| && Parent(i) == c :: h[i].priority <= h[Parent(c)].priority)
  }

  function Swap(h: seq<Task>, i: nat, j: nat): seq<Task>
    requires i < |h| && j < |h|
  {
    h[i := h[j]][j := h[i]]
  }

  lemma ParentBelow(i: nat)
    ensures i > 0 ==> Parent(i) < i
  {
  }

  lemma SwapSame(h: seq<Task>, i: nat, j: nat)
    requires i < |h| && j < |h|
    ensures multiset(Swap(h, i, j)) == multiset(h) && |Swap(h, i, j)| == |h|
  {
  }

  /** A new task at the end. */
  lemma UpStart(h: seq<Task>, n: Task)
    requires HeapOk(h)
    ensures UpOk(h + [n], |h|)
  {
    var g := h + [n];
    forall i | 0 < i < |g| && i != |h| ensures g[i].priority <= g[Parent(i)].priority {
      assert h[i].priority <= h[Parent(i)].priority;
    }
  }

  lemma UpSwap(h: seq<Task>, c: nat)
    requires UpOk(h, c) && c > 0 && h[c].priority > h[Parent(c)].priority
    ensures UpOk(Swap(h, c, Parent(c)), Parent(c))
  {
    var p, g := Parent(c), Swap(h, c, Parent(c));
    forall i | 0 < i < |g| && i != p ensures g[i].priority <= g[Parent(i)].priority {
      if i != c {
        assert h[i].priority <= h[Parent(i)].priority;
      }
    }
    if p > 0 {
      assert h[p].priority <= h[Parent(p)].priority;
      forall i | 0 < i < |g| && Parent(i) == p ensures g[i].priority <= g[Parent(p)].priority {
        if i != c {
          assert h[i].priority <= h[Parent(i)].priority;
        }
      }
    }
  }

  lemma UpDone(h: seq<Task>, c: nat)
    requires UpOk(h, c) && (c > 0 ==> h[c].priority <= h[Parent(c)].priority)
    ensures HeapOk(h)
  {
  }

  /** The index the second sift loop goes on to: a child of `c` with the highest priority, or `c` itself if none
      exceeds it. */
  function Larger(h: seq<Task>, c: nat): nat
    requires 2 * c + 1 < |h|
  {
    var s1, s2 := 2 * c + 1, 2 * c + 2;
    var m := if h[s1].priority > h[c].priority then s1 else c;
    if s2 < |h| && h[s2].priority > h[m].priority then s2 else m
  }

  lemma Children(i: nat, c: nat)
    requires i > 0 && Parent(i) == c
    ensures i == 2 * c + 1 || i == 2 * c + 2
  {
  }

  lemma DownSwap(h: seq<Task>, c: nat)
    requires DownOk(h, c) && 2 * c + 1 < |h| && Larger(h, c) != c
    ensures DownOk(Swap(h, c, Larger(h, c)), Larger(h, c)) && Larger(h, c) < |h|
  {
    var m := Larger(h, c);
    var g := Swap(h, c, m);
    LargerIs(h, c);
    hide Larger;
    ParentBelow(c);
    assert Parent(m) == c && |g| == |h| && (forall i | 0 <= i < |h| && i != c && i != m :: g[i] == h[i]);
    hide Swap;
    forall i | 0 < i < |g| && Parent(i) != m ensures g[i].priority <= g[Parent(i)].priority {
      if i == m || Parent(i) == c {
        assert Parent(i) == c;
      } else if i == c {
        assert h[m].priority <= h[Parent(c)].priority;
      } else {
        assert h[i].priority <= h[Parent(i)].priority;
      }
    }
    forall i | 0 < i < |g| && Parent(i) == m ensures g[i].priority <= g[Parent(m)].priority {
      ParentBelow(i);
      assert h[i].priority <= h[Parent(i)].priority;
    }
  }

  lemma LargerIs(h: seq<Task>, c: nat)
    requires 2 * c + 1 < |h| && Larger(h, c) != c
    ensures var m := Larger(h, c);
            c < m < |h| && Parent(m) == c && Swap(h, c, m)[c] == h[m] && Swap(h, c, m)[m] == h[c]
            && h[c].priority <= h[m].priority
            && forall i | 0 < i < |h| && Parent(i) == c :: h[i].priority <= h[m].priority
  {
    forall i | 0 < i < |h| && Parent(i) == c ensures h[i].priority <= h[Larger(h, c)].priority {
      Children(i, c);
    }
  }

  lemma DownDone(h: seq<Task>, c: nat)
    requires DownOk(h, c) && (2 * c + 1 < |h| ==> Larger(h, c) == c)
    ensures HeapOk(h)
  {
    forall i | 0 < i < |h| ensures h[i].priority <= h[Parent(i)].priority {
      if Parent(i) == c {
        Children(i, c);
      }
    }
  }

  /** The last task takes the place of the first. */
  lemma DownStart(h: seq<Task>)
    requires HeapOk(h) && |h| > 0
    ensures DownOk(h[0 := h[|h| - 1]][..|h| - 1], 0)
    ensures multiset(h[0 := h[|h| - 1]][..|h| - 1]) == multiset(h) - multiset{h[0]}
  {
    var g := h[0 := h[|h| - 1]];
    var t := g[..|h| - 1];
    forall i | 0 < i < |t| && Parent(i) != 0 ensures t[i].priority <= t[Parent(i)].priority {
      assert h[i].priority <= h[Parent(i)].priority;
    }
    LastToFirst(h);
  }

  lemma LastToFirst(h: seq<Task>)
    requires |h| > 0
    ensures multiset(h[0 := h[|h| - 1]][..|h| - 1]) == multiset(h) - multiset{h[0]}
  {
    var last := h[|h| - 1];
    if |h| == 1 {
      assert h == [h[0]];
    } else {
      var mid := h[1..|h| - 1];
      assert h == [h[0]] + mid + [last];
      assert h[0 := last][..|h| - 1] == [last] + mid;
    }
  }

  /** The first task of a heap has the highest priority. */
  lemma {:induction false} RootIsMax(h: seq<Task>, i: nat)
    requires HeapOk(h) && i < |h|
    ensures h[i].priority <= h[0].priority
    decreases i
  {
    if i > 0 {
      RootIsMax(h, Parent(i));
      assert h[i].priority <= h[Parent(i)].priority;
    }
  }

  lemma RootMax(h: seq<Task>)
    requires HeapOk(h) && |h| > 0
    ensures forall x | x in h :: x.priority <= h[0].priority
  {
    forall x | x in h ensures x.priority <= h[0].priority {
      var i :| 0 <= i < |h| && h[i] == x;
      RootIsMax(h, i);
    }
  }
}

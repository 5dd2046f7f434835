/** The task dispatcher: a fixed array used as a binary heap. */
module Dispatcher {
  import opened TaskHeap

  const MAX_TASKS: nat := 2048

  /** `dispatcher_t`, for one thread inside the lock. */
  class Queue {
    var size: nat
    const nodes: array<Task>

    constructor ()
      ensures Valid() && Tasks() == [] && fresh(nodes)
    {
      size := 0;
      nodes := new Task[MAX_TASKS](_ => Task(0, 0));
    }

    ghost predicate Shape()
      reads this
    {
      nodes.Length == MAX_TASKS && size <= MAX_TASKS
    }

    ghost function Tasks(): seq<Task>
      requires Shape()
      reads this, nodes
    {
      nodes[..size]
    }

    ghost predicate Valid()
      reads this, nodes
    {
      Shape() && HeapOk(Tasks())
    }

    method SwapNodes(i: nat, j: nat)
      requires Shape() && i < size && j < size
      modifies nodes
      ensures Shape() && Tasks() == Swap(old(Tasks()), i, j)
    {
      var tmp := nodes[i];
      nodes[i] := nodes[j];
      nodes[j] := tmp;
    }

    /** One turn of the sift-up loop. */
    method Raise(cur: nat, ghost parent: nat)
      requires Shape() && 0 < cur < size && parent == Parent(cur) && UpOk(Tasks(), cur)
      requires nodes[cur].priority > nodes[parent].priority
      modifies nodes
      ensures Shape() && UpOk(Tasks(), parent) && multiset(Tasks()) == multiset(old(Tasks()))
    {
      hide HeapOk; hide UpOk; hide Swap;
      UpSwap(Tasks(), cur);
      SwapSame(Tasks(), cur, parent);
      SwapNodes(cur, Parent(cur));
    }

    /** `put_task` between taking and releasing the lock. */
    method Put(n: Task)
      requires Valid() && size < MAX_TASKS
      modifies this`size, nodes
      ensures Valid() && multiset(Tasks()) == multiset(old(Tasks())) + multiset{n} && size == old(size) + 1
    {
      hide HeapOk; hide UpOk; hide Swap; hide Parent;
      var cur := size;
      UpStart(Tasks(), n);
      nodes[cur] := n;
      size := size + 1;
      assert Tasks() == old(Tasks()) + [n];
      while cur > 0
        invariant Shape() && cur < size == old(size) + 1 && UpOk(Tasks(), cur)
        invariant multiset(Tasks()) == multiset(old(Tasks())) + multiset{n}
      {
        ParentBelow(cur);
        var parent := Parent(cur);
        if nodes[cur].priority > nodes[parent].priority {
          Raise(cur, parent);
        } else {
          break;
        }
        cur := parent;
      }
      UpDone(Tasks(), cur);
    }

    method LastToRoot()
      requires Shape() && size > 0
      modifies this`size, nodes
      ensures Shape() && size == old(size) - 1 && Tasks() == old(Tasks())[0 := old(Tasks())[old(size) - 1]][..size]
    {
      nodes[0] := nodes[size - 1];
      size := size - 1;
    }

    /** The son the second loop goes on to, or `cur` itself. */
    method MaxSon(cur: nat) returns (maxi: nat)
      requires Shape() && cur * 2 + 1 < size
      ensures maxi == Larger(Tasks(), cur) && maxi < size && (maxi != cur ==> maxi > cur)
    {
      maxi := cur;
      var maxval := nodes[cur].priority;
      var son1, son2 := cur * 2 + 1, cur * 2 + 2;
      if nodes[son1].priority > maxval {
        maxi := son1;
        maxval := nodes[son1].priority;
      }
      if son2 < size && nodes[son2].priority > maxval {
        maxi := son2;
        maxval := nodes[son2].priority;
      }
    }

    /** `get_task` between taking and releasing the lock: a task of the highest priority. */
    method Get() returns (n: Task)
      requires Valid() && size > 0
      modifies this`size, nodes
      ensures Valid() && size == old(size) - 1 && n in old(Tasks())
              && multiset(Tasks()) == multiset(old(Tasks())) - multiset{n}
      ensures forall x | x in old(Tasks()) :: x.priority <= n.priority
    {
      hide HeapOk; hide DownOk; hide Swap; hide Larger;
      n := nodes[0];
      RootMax(Tasks());
      DownStart(Tasks());
      LastToRoot();
      var cur := 0;
      while cur * 2 + 1 < size
        invariant Shape() && size == old(size) - 1 && DownOk(Tasks(), cur)
        invariant multiset(Tasks()) == multiset(old(Tasks())) - multiset{n}
        decreases size - cur
      {
        var maxi := MaxSon(cur);
        if maxi != cur {
          DownSwap(Tasks(), cur);
          SwapSame(Tasks(), cur, maxi);
          SwapNodes(cur, maxi);
          cur := maxi;
        } else {
          break;
        }
      }
      DownDone(Tasks(), cur);
    }
  }
}

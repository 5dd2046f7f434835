/** Every step of every thread keeps connections and queries in one place each, the locks exclusive and the semaphore
    in step with the waiting list. */
module DbSafety {
  import opened DbPool
  import opened DbPlaces

  // ---------- locks ----------

  ghost predicate PoolLockFollows(lock: map<Pool, Tid>, lock': map<Pool, Tid>, t: Tid, pc: Pc, pc': Pc) {
    match PoolOf(pc)
    case Some(p) => (PoolOf(pc') == Some(p) && lock' == lock) || (PoolOf(pc') == None && lock' == lock - {p})
    case None =>
      (PoolOf(pc') == None && lock' == lock)
      || (PoolOf(pc').Some? && PoolOf(pc').value !in lock && lock' == lock[PoolOf(pc').value := t])
  }

  ghost predicate WLockFollows(lock: map<bool, Tid>, lock': map<bool, Tid>, t: Tid, pc: Pc, pc': Pc) {
    if HoldsW(pc) then (if HoldsW(pc') then lock' == lock else lock' == lock - {true})
    else if HoldsW(pc') then true !in lock && lock' == lock[true := t] else lock' == lock
  }

  /** One thread moved; the lock table follows its program point. */
  lemma PoolLocksMove(s: State, s': State, t: Tid, pc': Pc)
    requires PoolLocks(s) && t in s.pc && s'.pc == s.pc[t := pc']
             && PoolLockFollows(s.poolLock, s'.poolLock, t, s.pc[t], pc')
    ensures PoolLocks(s')
  {
    hide PoolOf;
  }

  lemma WLockMove(s: State, s': State, t: Tid, pc': Pc)
    requires WLock(s) && t in s.pc && s'.pc == s.pc[t := pc'] && WLockFollows(s.wLock, s'.wLock, t, s.pc[t], pc')
    ensures WLock(s')
  {
    hide HoldsW;
  }

  lemma AfterFree(k: Then)
    ensures PoolOf(After(k)) == None && !HoldsW(After(k)) && !PastWait(After(k)) && !Unposted(After(k))
    ensures HeldQ(After(k)) == QueryOf(k)
  {
  }

  lemma IdleLocks(s: State, t: Tid, c: Choice)
    ensures PoolLockFollows(s.poolLock, IdleEffect(s, c).poolLock, t, Idle, IdleNext(s, c))
    ensures WLockFollows(s.wLock, IdleEffect(s, c).wLock, t, Idle, IdleNext(s, c))
  {
  }

  lemma PoolLocks1Early(s: State, t: Tid, pc: Pc)
    requires Early(pc)
    requires InPool(pc) && (pc.Submit? ==> pc.q.pool !in s.poolLock) && (pc.Give? ==> pc.it.pool !in s.poolLock)
    requires pc.Pair? || pc.TakeItem? || pc.TakeQuery? ==> PcOk(s, pc)
    requires forall p, i | 0 <= i < |ItemsOf(s, p)| :: ItemsOf(s, p)[i].pool == p
    ensures PoolLockFollows(s.poolLock, PoolEffect(s, t, pc).poolLock, t, pc, PoolNext(s, pc))
  {
  }

  lemma PoolLocks1Late(s: State, t: Tid, pc: Pc)
    requires !Early(pc)
    requires InPool(pc)
    ensures PoolLockFollows(s.poolLock, PoolEffect(s, t, pc).poolLock, t, pc, PoolNext(s, pc))
  {
    if pc.Release? {
      AfterFree(pc.k);
    }
  }

  lemma PoolLocks1(s: State, t: Tid, pc: Pc)
    requires InPool(pc) && (pc.Submit? ==> pc.q.pool !in s.poolLock) && (pc.Give? ==> pc.it.pool !in s.poolLock)
    requires pc.Pair? || pc.TakeItem? || pc.TakeQuery? ==> PcOk(s, pc)
    requires forall p, i | 0 <= i < |ItemsOf(s, p)| :: ItemsOf(s, p)[i].pool == p
    ensures PoolLockFollows(s.poolLock, PoolEffect(s, t, pc).poolLock, t, pc, PoolNext(s, pc))
  {
    hide PoolEffect; hide PoolNext; hide InPool; hide PoolOf; hide PcOk;
    if Early(pc) {
      PoolLocks1Early(s, t, pc);
    } else {
      PoolLocks1Late(s, t, pc);
    }
  }

  lemma PoolLocks2Early(s: State, t: Tid, pc: Pc)
    requires Early(pc)
    requires InPool(pc)
    ensures WLockFollows(s.wLock, PoolEffect(s, t, pc).wLock, t, pc, PoolNext(s, pc))
  {
  }

  lemma PoolLocks2Late(s: State, t: Tid, pc: Pc)
    requires !Early(pc)
    requires InPool(pc) && (pc.WantW? ==> true !in s.wLock)
    ensures WLockFollows(s.wLock, PoolEffect(s, t, pc).wLock, t, pc, PoolNext(s, pc))
  {
    if pc.Release? {
      AfterFree(pc.k);
    }
  }

  lemma PoolLocks2(s: State, t: Tid, pc: Pc)
    requires InPool(pc) && (pc.WantW? ==> true !in s.wLock)
    ensures WLockFollows(s.wLock, PoolEffect(s, t, pc).wLock, t, pc, PoolNext(s, pc))
  {
    hide PoolEffect; hide PoolNext; hide InPool; hide HoldsW;
    if Early(pc) {
      PoolLocks2Early(s, t, pc);
    } else {
      PoolLocks2Late(s, t, pc);
    }
  }

  lemma WorkLocks(s: State, t: Tid, pc: Pc, c: Choice)
    requires !InPool(pc) && (pc.WorkLock? ==> true !in s.wLock) && (pc.WorkDrop? ==> pc.q in s.item)
    ensures PoolLockFollows(s.poolLock, WorkEffect(s, t, pc, c).poolLock, t, pc, WorkNext(s, pc, c))
    ensures WLockFollows(s.wLock, WorkEffect(s, t, pc, c).wLock, t, pc, WorkNext(s, pc, c))
  {
    hide WorkEffect;
    WorkLockTables(s, t, pc, c);
  }

  lemma WorkLockTablesInside(s: State, t: Tid, pc: Pc, c: Choice)
    requires AtWork(pc)
    ensures var s' := WorkEffect(s, t, pc, c);
            s'.poolLock == s.poolLock
            && s'.wLock == (if pc.WorkLock? then s.wLock[true := t] else if pc.WorkOut? then s.wLock - {true}
               else s.wLock)
  {
    hide Results;
  }

  lemma WorkLockTablesOutside(s: State, t: Tid, pc: Pc, c: Choice)
    requires !AtWork(pc)
    ensures var s' := WorkEffect(s, t, pc, c);
            s'.poolLock == s.poolLock
            && s'.wLock == (if pc.WorkLock? then s.wLock[true := t] else if pc.WorkOut? then s.wLock - {true}
               else s.wLock)
  {
    hide Results;
  }

  lemma WorkLockTables(s: State, t: Tid, pc: Pc, c: Choice)
    ensures var s' := WorkEffect(s, t, pc, c);
            s'.poolLock == s.poolLock
            && s'.wLock == (if pc.WorkLock? then s.wLock[true := t] else if pc.WorkOut? then s.wLock - {true}
               else s.wLock)
  {
    hide WorkEffect;
    if AtWork(pc) {
      WorkLockTablesInside(s, t, pc, c);
    } else {
      WorkLockTablesOutside(s, t, pc, c);
    }
  }

  lemma LocksKept(s: State, t: Tid, c: Choice)
    requires Enabled(s, t, c) && PoolLocks(s) && WLock(s) && PoolLists(s) && Local(s)
    ensures PoolLocks(Do(s, t, c)) && WLock(Do(s, t, c))
  {
    hide PoolLocks; hide WLock; hide PoolLockFollows; hide WLockFollows; hide PoolNext; hide PoolEffect; hide WorkNext;
    hide WorkEffect;
    hide IdleNext; hide IdleEffect;
    var pc := s.pc[t];
    LocalAt(s, t);
    if pc == Idle {
      IdleLocks(s, t, c);
    } else if InPool(pc) {
      PoolLocks1(s, t, pc);
      PoolLocks2(s, t, pc);
    } else {
      WorkLocks(s, t, pc, c);
    }
    PoolLocksMove(s, Do(s, t, c), t, NextPc(s, pc, c));
    WLockMove(s, Do(s, t, c), t, NextPc(s, pc, c));
  }

  lemma LocalAt(s: State, t: Tid)
    requires Local(s) && t in s.pc
    ensures PcOk(s, s.pc[t])
  {
  }

  // ---------- the semaphore ----------

  lemma SetMove(s: State, s': State, t: Tid, pc': Pc)
    requires t in s.pc && s'.pc == s.pc[t := pc']
    ensures |PastWaiters(s')| - |PastWaiters(s)| == Bit(PastWait(pc')) - Bit(PastWait(s.pc[t]))
    ensures |Posters(s')| - |Posters(s)| == Bit(Unposted(pc')) - Bit(Unposted(s.pc[t]))
  {
    hide PastWait; hide Unposted;
    OneMore(PastWaiters(s), PastWaiters(s'), t);
    OneMore(Posters(s), Posters(s'), t);
  }

  lemma OneMore(a: set<Tid>, b: set<Tid>, t: Tid)
    requires a - {t} == b - {t}
    ensures |b| - |a| == Bit(t in b) - Bit(t in a)
  {
    var c := a - {t};
    assert if t in a then a == c + {t} else a == c;
    assert if t in b then b == c + {t} else b == c;
  }

  ghost function Bit(b: bool): int {
    if b then 1 else 0
  }

  /** What a step adds to the waiting list it adds to the semaphore, or to the threads between the two. */
  ghost predicate Even(s: State, s': State, pc: Pc, pc': Pc) {
    |s'.waiting| - |s.waiting| == s'.sem - s.sem + Bit(PastWait(pc')) - Bit(PastWait(pc))
      + Bit(Unposted(pc')) - Bit(Unposted(pc))
  }

  lemma IdleEven(s: State, t: Tid, c: Choice)
    requires c.Go? ==> s.sem > 0
    ensures Even(s, IdleEffect(s, c), Idle, IdleNext(s, c))
  {
  }

  lemma PoolEvenEarly(s: State, t: Tid, pc: Pc)
    requires Early(pc)
    requires InPool(pc) && PcOk(s, pc)
    ensures Even(s, PoolEffect(s, t, pc), pc, PoolNext(s, pc))
  {
  }

  lemma PoolEvenLate(s: State, t: Tid, pc: Pc)
    requires !Early(pc)
    requires InPool(pc) && PcOk(s, pc)
    ensures Even(s, PoolEffect(s, t, pc), pc, PoolNext(s, pc))
  {
    if pc.Release? {
      AfterFree(pc.k);
    }
  }

  lemma PoolEven(s: State, t: Tid, pc: Pc)
    requires InPool(pc) && PcOk(s, pc)
    ensures Even(s, PoolEffect(s, t, pc), pc, PoolNext(s, pc))
  {
    hide PoolEffect; hide PoolNext; hide InPool; hide PcOk; hide PastWait; hide Unposted;
    if Early(pc) {
      PoolEvenEarly(s, t, pc);
    } else {
      PoolEvenLate(s, t, pc);
    }
  }

  lemma WorkEvenInside(s: State, t: Tid, pc: Pc, c: Choice)
    requires AtWork(pc)
    requires !InPool(pc) && PcOk(s, pc) && (pc.WorkDrop? ==> pc.q in s.item)
    ensures Even(s, WorkEffect(s, t, pc, c), pc, WorkNext(s, pc, c))
  {
    hide Results; hide SentOn; hide ItemsOf; hide QueriesOf;
  }

  lemma WorkEvenOutside(s: State, t: Tid, pc: Pc, c: Choice)
    requires !AtWork(pc)
    requires !InPool(pc) && PcOk(s, pc) && (pc.WorkDrop? ==> pc.q in s.item)
    ensures Even(s, WorkEffect(s, t, pc, c), pc, WorkNext(s, pc, c))
  {
    hide Results; hide SentOn; hide ItemsOf; hide QueriesOf;
  }

  lemma WorkEven(s: State, t: Tid, pc: Pc, c: Choice)
    requires !InPool(pc) && PcOk(s, pc) && (pc.WorkDrop? ==> pc.q in s.item)
    ensures Even(s, WorkEffect(s, t, pc, c), pc, WorkNext(s, pc, c))
  {
    hide WorkEffect; hide WorkNext; hide InPool; hide PcOk; hide PastWait; hide Unposted;
    if AtWork(pc) {
      WorkEvenInside(s, t, pc, c);
    } else {
      WorkEvenOutside(s, t, pc, c);
    }
  }

  lemma BalanceKept(s: State, t: Tid, c: Choice)
    requires Enabled(s, t, c) && Balanced(s) && Local(s)
    ensures Balanced(Do(s, t, c))
  {
    hide PastWaiters; hide Posters; hide Local; hide PoolNext; hide PoolEffect; hide WorkNext; hide WorkEffect;
    hide IdleNext; hide IdleEffect;
    hide PastWait; hide Unposted; hide PcOk;
    var pc := s.pc[t];
    LocalAt(s, t);
    if pc == Idle {
      IdleEven(s, t, c);
    } else if InPool(pc) {
      PoolEven(s, t, pc);
    } else {
      WorkEven(s, t, pc, c);
    }
    SetMove(s, Do(s, t, c), t, NextPc(s, pc, c));
  }

  /** A worker that has come past the semaphore never finds the waiting list empty. */
  lemma NeverEmpty(s: State, t: Tid)
    requires Balanced(s) && t in s.pc && PastWait(s.pc[t])
    ensures s.waiting != []
  {
    assert t in PastWaiters(s);
  }

  // ---------- lists ----------

  /** A query in the hands of a thread is nowhere else. */
  lemma HeldOnly(s: State, q: Query, v: map<Query, QPlace>, t: Tid)
    requires QueriesAt(s, v) && t in s.pc && q in HeldQ(s.pc[t])
    ensures q !in QueriesOf(s, q.pool) && q !in s.waiting && q !in s.tasks && q !in s.events && q !in s.called && q in v
            && v[q] == HeldBy(t)
    ensures forall u | u in s.pc && u != t :: q !in HeldQ(s.pc[u])
  {
    hide HeldQ;
    assert QAt(s, q, HeldBy(t));
    assert !QAt(s, q, Queued) && !QAt(s, q, Waiting) && !QAt(s, q, InTask) && !QAt(s, q, InEvent) && !QAt(s, q, Done);
    forall u | u in s.pc && u != t ensures q !in HeldQ(s.pc[u]) {
      assert !QAt(s, q, HeldBy(u));
    }
  }

  lemma ItemHeldOnly(s: State, it: Item, w: map<Item, Place>, t: Tid)
    requires ItemsAt(s, w) && t in s.pc && it in Held(s.item, s.pc[t])
    ensures it !in ItemsOf(s, it.pool) && it in w && w[it] == With(t)
  {
    assert AtPlace(s, it, With(t));
    assert !AtPlace(s, it, Free);
  }

  lemma TailUnique<T>(l: seq<T>)
    requires Unique(l)
    ensures Unique(Tail(l)) && (l != [] ==> l[0] !in Tail(l)) && (forall x | x in Tail(l) :: x in l)
            && (l == [] ==> Tail(l) == [])
  {
  }

  lemma HeadUnique<T>(x: T, l: seq<T>)
    requires Unique(l) && x !in l
    ensures Unique([x] + l)
  {
  }

  /** Only pool `p` changes its lists. */
  lemma OnePool(s: State, s': State, p: Pool)
    requires PoolLists(s) && NotBoth(s) && Unique(s'.waiting)
    requires forall r :: r != p ==> ItemsOf(s', r) == ItemsOf(s, r) && QueriesOf(s', r) == QueriesOf(s, r)
    requires Unique(ItemsOf(s', p)) && Unique(QueriesOf(s', p)) && (ItemsOf(s', p) == [] || QueriesOf(s', p) == [])
    requires (forall x | x in ItemsOf(s', p) :: x.pool == p) && (forall x | x in QueriesOf(s', p) :: x.pool == p)
    ensures PoolLists(s') && NotBoth(s')
  {
    hide Unique;
    forall r, i | 0 <= i < |ItemsOf(s', r)| ensures ItemsOf(s', r)[i].pool == r {
      if r == p {
        assert ItemsOf(s', p)[i] in ItemsOf(s', p);
      }
    }
    forall r, i | 0 <= i < |QueriesOf(s', r)| ensures QueriesOf(s', r)[i].pool == r {
      if r == p {
        assert QueriesOf(s', p)[i] in QueriesOf(s', p);
      }
    }
  }

  lemma OwnPool(s: State, p: Pool)
    requires PoolLists(s) && NotBoth(s)
    ensures (forall x | x in ItemsOf(s, p) :: x.pool == p) && (forall x | x in QueriesOf(s, p) :: x.pool == p)
    ensures Unique(ItemsOf(s, p)) && Unique(QueriesOf(s, p)) && (ItemsOf(s, p) == [] || QueriesOf(s, p) == [])
            && Unique(s.waiting)
  {
  }

  /** What a step does to one pool's connections and queries and to the waiting list. */
  lemma PoolListsKept(s: State, t: Tid, pc: Pc)
    requires InPool(pc) && PoolLists(s) && NotBoth(s) && PcOk(s, pc)
    requires pc.PutQuery? ==> pc.q !in QueriesOf(s, pc.q.pool)
    requires pc.PutItem? ==> pc.it !in ItemsOf(s, pc.it.pool)
    requires pc.Publish? ==> pc.q !in s.waiting
    ensures PoolLists(PoolEffect(s, t, pc)) && NotBoth(PoolEffect(s, t, pc))
  {
    hide Unique; hide PoolLists; hide NotBoth; hide InPool; hide PcOk;
    if pc.TakeItem? || pc.PutItem? {
      ItemListsKept(s, t, pc);
    } else if pc.TakeQuery? || pc.PutQuery? {
      QueryListsKept(s, t, pc);
    } else if pc.Publish? {
      WaitingKept(s, t, pc);
    } else {
      SameLists(s, PoolEffect(s, t, pc));
    }
  }

  lemma WaitingKept(s: State, t: Tid, pc: Pc)
    requires pc.Publish? && pc.q !in s.waiting && PoolLists(s) && NotBoth(s) && PcOk(s, pc)
    ensures PoolLists(PoolEffect(s, t, pc)) && NotBoth(PoolEffect(s, t, pc))
  {
    hide Unique; hide PoolLists; hide NotBoth;
    OwnPool(s, pc.q.pool);
    HeadUnique(pc.q, s.waiting);
    OnePool(s, PoolEffect(s, t, pc), pc.q.pool);
  }

  lemma ItemListsKept(s: State, t: Tid, pc: Pc)
    requires (pc.TakeItem? || pc.PutItem?) && PoolLists(s) && NotBoth(s) && PcOk(s, pc)
    requires pc.PutItem? ==> pc.it !in ItemsOf(s, pc.it.pool)
    ensures PoolLists(PoolEffect(s, t, pc)) && NotBoth(PoolEffect(s, t, pc))
  {
    hide Unique; hide PoolLists; hide NotBoth;
    var p := if pc.TakeItem? then pc.q.pool else pc.it.pool;
    OwnPool(s, p);
    if pc.TakeItem? {
      TailUnique(ItemsOf(s, p));
    } else {
      HeadUnique(pc.it, ItemsOf(s, p));
    }
    OnePool(s, PoolEffect(s, t, pc), p);
  }

  lemma QueryListsKept(s: State, t: Tid, pc: Pc)
    requires (pc.TakeQuery? || pc.PutQuery?) && PoolLists(s) && NotBoth(s) && PcOk(s, pc)
    requires pc.PutQuery? ==> pc.q !in QueriesOf(s, pc.q.pool)
    ensures PoolLists(PoolEffect(s, t, pc)) && NotBoth(PoolEffect(s, t, pc))
  {
    hide Unique; hide PoolLists; hide NotBoth;
    var p := if pc.TakeQuery? then pc.it.pool else pc.q.pool;
    OwnPool(s, p);
    if pc.TakeQuery? {
      TailUnique(QueriesOf(s, p));
    } else {
      HeadUnique(pc.q, QueriesOf(s, p));
    }
    OnePool(s, PoolEffect(s, t, pc), p);
  }

  lemma WorkListsInside(s: State, t: Tid, pc: Pc, c: Choice)
    requires AtWork(pc)
    ensures var s' := WorkEffect(s, t, pc, c);
            s'.items == s.items && s'.queries == s.queries && s'.waiting == if pc.WorkDrop? then pc.next else s.waiting
  {
    hide Results;
  }

  lemma WorkListsOutside(s: State, t: Tid, pc: Pc, c: Choice)
    requires !AtWork(pc)
    ensures var s' := WorkEffect(s, t, pc, c);
            s'.items == s.items && s'.queries == s.queries && s'.waiting == if pc.WorkDrop? then pc.next else s.waiting
  {
    hide Results; hide ItemsOf; hide QueriesOf; hide Tail;
  }

  lemma WorkLists(s: State, t: Tid, pc: Pc, c: Choice)
    ensures var s' := WorkEffect(s, t, pc, c);
            s'.items == s.items && s'.queries == s.queries && s'.waiting == if pc.WorkDrop? then pc.next else s.waiting
  {
    hide WorkEffect;
    if AtWork(pc) {
      WorkListsInside(s, t, pc, c);
    } else {
      WorkListsOutside(s, t, pc, c);
    }
  }

  lemma IdleLists(s: State, c: Choice)
    ensures var s' := IdleEffect(s, c); s'.items == s.items && s'.queries == s.queries && s'.waiting == s.waiting
  {
  }

  lemma ListsKept(s: State, t: Tid, c: Choice, w: map<Item, Place>, v: map<Query, QPlace>)
    requires Enabled(s, t, c) && PoolLists(s) && NotBoth(s) && Local(s) && ItemsAt(s, w) && QueriesAt(s, v)
    ensures PoolLists(Do(s, t, c)) && NotBoth(Do(s, t, c))
  {
    hide Local; hide ItemsAt; hide QueriesAt; hide Unique; hide PoolEffect; hide WorkEffect; hide IdleEffect;
    hide NextPc; hide NotBoth; hide PoolLists;
    var pc := s.pc[t];
    LocalAt(s, t);
    WorkLists(s, t, pc, c);
    IdleLists(s, c);
    if InPool(pc) {
      if pc.PutQuery? || pc.Publish? {
        HeldOnly(s, pc.q, v, t);
      } else if pc.PutItem? {
        ItemHeldOnly(s, pc.it, w, t);
      }
      PoolListsKept(s, t, pc);
      SameLists(PoolEffect(s, t, pc), Do(s, t, c));
    } else if pc.WorkDrop? {
      DropKeeps(s, Do(s, t, c));
    } else {
      SameLists(s, Do(s, t, c));
    }
  }

  lemma SameLists(s: State, s': State)
    requires PoolLists(s) && NotBoth(s) && s'.items == s.items && s'.queries == s.queries && s'.waiting == s.waiting
    ensures PoolLists(s') && NotBoth(s')
  {
    hide Unique;
    assert forall p :: ItemsOf(s', p) == ItemsOf(s, p) && QueriesOf(s', p) == QueriesOf(s, p);
  }

  lemma DropKeeps(s: State, s': State)
    requires PoolLists(s) && NotBoth(s) && s'.items == s.items && s'.queries == s.queries
             && s'.waiting == Tail(s.waiting)
    ensures PoolLists(s') && NotBoth(s')
  {
    hide Unique;
    TailUnique(s.waiting);
    assert forall p :: ItemsOf(s', p) == ItemsOf(s, p) && QueriesOf(s', p) == QueriesOf(s, p);
  }

  // ---------- what a thread may rely on ----------

  lemma PcOkFrame(s: State, s': State, c: Pc)
    requires PcOk(s, c)
    requires forall p | PoolOf(c) == Some(p) :: ItemsOf(s', p) == ItemsOf(s, p) && QueriesOf(s', p) == QueriesOf(s, p)
    requires HoldsW(c) ==> s'.waiting == s.waiting
    requires forall q | q in HeldQ(c) && q in s.item :: q in s'.item && s'.item[q] == s.item[q]
    ensures PcOk(s', c)
  {
  }

  /** A step leaves alone what it holds no lock for. */
  lemma EffectFrame(s: State, t: Tid, pc: Pc, c: Choice)
    requires PcOk(s, pc)
    ensures var s' := Effect(s, t, pc, c);
            (!HoldsW(pc) ==> s'.waiting == s.waiting)
            && (forall p: Pool | PoolOf(pc) != Some(p) ::
                  ItemsOf(s', p) == ItemsOf(s, p) && QueriesOf(s', p) == QueriesOf(s, p))
            && s'.item == (if pc.Pair? then s.item[pc.q := pc.it] else s.item)
            && (pc.Pair? ==>
                  pc.q in HeldQ(pc) && s'.waiting == s.waiting && s'.tasks == s.tasks && s'.events == s.events)
  {
    hide PoolEffect; hide WorkEffect; hide IdleEffect; hide PcOk; hide HoldsW; hide PoolOf; hide InPool;
    if pc == Idle {
      WorkFrame(s, t, pc, c);
    } else if InPool(pc) {
      PoolFrame(s, t, pc);
    } else {
      WorkFrame(s, t, pc, c);
    }
    FrameKinds(pc);
  }

  lemma FrameKinds(pc: Pc)
    ensures pc.WorkDrop? ==> HoldsW(pc)
    ensures pc.Pair? ==> InPool(pc) && pc.q in HeldQ(pc) && pc != Idle
    ensures pc == Idle ==> !HoldsW(pc) && PoolOf(pc) == None
  {
  }

  lemma PoolFrame(s: State, t: Tid, pc: Pc)
    requires PcOk(s, pc)
    ensures var s' := PoolEffect(s, t, pc);
            (!HoldsW(pc) ==> s'.waiting == s.waiting)
            && (forall p: Pool | PoolOf(pc) != Some(p) ::
                  ItemsOf(s', p) == ItemsOf(s, p) && QueriesOf(s', p) == QueriesOf(s, p))
            && s'.item == (if pc.Pair? then s.item[pc.q := pc.it] else s.item)
            && (pc.Pair? ==> s'.waiting == s.waiting && s'.tasks == s.tasks && s'.events == s.events)
  {
    hide PoolEffect; hide PcOk; hide HoldsW; hide PoolOf;
    PoolScalars(s, t, pc);
    PoolItems(s, t, pc);
    PoolQueued(s, t, pc);
  }

  lemma PoolScalarsEarly(s: State, t: Tid, pc: Pc)
    requires Early(pc)
    ensures var s' := PoolEffect(s, t, pc);
            (!HoldsW(pc) ==> s'.waiting == s.waiting) && s'.item == (if pc.Pair? then s.item[pc.q := pc.it] else s.item)
            && (pc.Pair? ==> s'.waiting == s.waiting && s'.tasks == s.tasks && s'.events == s.events)
  {
    hide ItemsOf; hide QueriesOf; hide Tail;
  }

  lemma PoolScalarsLate(s: State, t: Tid, pc: Pc)
    requires !Early(pc)
    ensures var s' := PoolEffect(s, t, pc);
            (!HoldsW(pc) ==> s'.waiting == s.waiting) && s'.item == (if pc.Pair? then s.item[pc.q := pc.it] else s.item)
            && (pc.Pair? ==> s'.waiting == s.waiting && s'.tasks == s.tasks && s'.events == s.events)
  {
    hide ItemsOf; hide QueriesOf; hide Tail;
  }

  lemma PoolScalars(s: State, t: Tid, pc: Pc)
    ensures var s' := PoolEffect(s, t, pc);
            (!HoldsW(pc) ==> s'.waiting == s.waiting) && s'.item == (if pc.Pair? then s.item[pc.q := pc.it] else s.item)
            && (pc.Pair? ==> s'.waiting == s.waiting && s'.tasks == s.tasks && s'.events == s.events)
  {
    hide PoolEffect; hide HoldsW;
    if Early(pc) {
      PoolScalarsEarly(s, t, pc);
    } else {
      PoolScalarsLate(s, t, pc);
    }
  }

  lemma PoolItemsEarly(s: State, t: Tid, pc: Pc)
    requires Early(pc)
    ensures var s' := PoolEffect(s, t, pc); forall p: Pool | PoolOf(pc) != Some(p) :: ItemsOf(s', p) == ItemsOf(s, p)
  {
    hide QueriesOf; hide Tail;
  }

  lemma PoolItemsLate(s: State, t: Tid, pc: Pc)
    requires !Early(pc)
    ensures var s' := PoolEffect(s, t, pc); forall p: Pool | PoolOf(pc) != Some(p) :: ItemsOf(s', p) == ItemsOf(s, p)
  {
    hide QueriesOf; hide Tail;
  }

  lemma PoolItems(s: State, t: Tid, pc: Pc)
    ensures var s' := PoolEffect(s, t, pc); forall p: Pool | PoolOf(pc) != Some(p) :: ItemsOf(s', p) == ItemsOf(s, p)
  {
    hide PoolEffect; hide PoolOf; hide ItemsOf;
    if Early(pc) {
      PoolItemsEarly(s, t, pc);
    } else {
      PoolItemsLate(s, t, pc);
    }
  }

  lemma PoolQueuedEarly(s: State, t: Tid, pc: Pc)
    requires Early(pc)
    ensures var s' := PoolEffect(s, t, pc); forall p: Pool | PoolOf(pc) != Some(p) ::
              QueriesOf(s', p) == QueriesOf(s, p)
  {
    hide ItemsOf; hide Tail;
  }

  lemma PoolQueuedLate(s: State, t: Tid, pc: Pc)
    requires !Early(pc)
    ensures var s' := PoolEffect(s, t, pc); forall p: Pool | PoolOf(pc) != Some(p) ::
              QueriesOf(s', p) == QueriesOf(s, p)
  {
    hide ItemsOf; hide Tail;
  }

  lemma PoolQueued(s: State, t: Tid, pc: Pc)
    ensures var s' := PoolEffect(s, t, pc); forall p: Pool | PoolOf(pc) != Some(p) ::
              QueriesOf(s', p) == QueriesOf(s, p)
  {
    hide PoolEffect; hide PoolOf; hide QueriesOf;
    if Early(pc) {
      PoolQueuedEarly(s, t, pc);
    } else {
      PoolQueuedLate(s, t, pc);
    }
  }

  lemma WorkFrame(s: State, t: Tid, pc: Pc, c: Choice)
    ensures var s' := WorkEffect(s, t, pc, c);
            s'.items == s.items && s'.queries == s.queries && s'.item == s.item
            && (!pc.WorkDrop? ==> s'.waiting == s.waiting)
    ensures var s' := IdleEffect(s, c);
            s'.items == s.items && s'.queries == s.queries && s'.item == s.item && s'.waiting == s.waiting
  {
    hide WorkEffect; hide IdleEffect;
    WorkLists(s, t, pc, c);
    IdleLists(s, c);
    WorkItem(s, t, pc, c);
    IdleItem(s, c);
  }

  lemma WorkItemInside(s: State, t: Tid, pc: Pc, c: Choice)
    requires AtWork(pc)
    ensures WorkEffect(s, t, pc, c).item == s.item
  {
    hide Results;
  }

  lemma WorkItemOutside(s: State, t: Tid, pc: Pc, c: Choice)
    requires !AtWork(pc)
    ensures WorkEffect(s, t, pc, c).item == s.item
  {
    hide Results;
  }

  lemma WorkItem(s: State, t: Tid, pc: Pc, c: Choice)
    ensures WorkEffect(s, t, pc, c).item == s.item
  {
    hide WorkEffect;
    if AtWork(pc) {
      WorkItemInside(s, t, pc, c);
    } else {
      WorkItemOutside(s, t, pc, c);
    }
  }

  lemma IdleItem(s: State, c: Choice)
    ensures IdleEffect(s, c).item == s.item
  {
  }

  lemma PoolArrivesEarly(s: State, t: Tid, pc: Pc)
    requires Early(pc)
    requires InPool(pc) && PcOk(s, pc) && PoolLists(s)
    requires pc.TakeQuery? ==> forall q | q in QueryOf(pc.k) :: q !in QueriesOf(s, pc.it.pool)
    ensures PcOk(PoolEffect(s, t, pc), PoolNext(s, pc))
  {
    hide InPool;
  }

  lemma ReleaseArrives(s: State, t: Tid, pc: Pc)
    requires pc.Release? && PcOk(s, pc)
    ensures PcOk(PoolEffect(s, t, pc), PoolNext(s, pc))
  {
  }

  lemma PoolArrivesLate(s: State, t: Tid, pc: Pc)
    requires !Early(pc)
    requires InPool(pc) && PcOk(s, pc) && PoolLists(s)
    ensures PcOk(PoolEffect(s, t, pc), PoolNext(s, pc))
  {
    hide InPool; hide ItemsOf; hide QueriesOf; hide Tail;
    if pc.Release? {
      ReleaseArrives(s, t, pc);
    }
  }

  /** Where the step leads, what it relies on there holds. */
  lemma PoolArrives(s: State, t: Tid, pc: Pc)
    requires InPool(pc) && PcOk(s, pc) && PoolLists(s)
    requires pc.TakeQuery? ==> forall q | q in QueryOf(pc.k) :: q !in QueriesOf(s, pc.it.pool)
    ensures PcOk(PoolEffect(s, t, pc), PoolNext(s, pc))
  {
    hide PoolEffect; hide PoolNext; hide InPool; hide PcOk; hide PoolLists;
    if Early(pc) {
      PoolArrivesEarly(s, t, pc);
    } else {
      PoolArrivesLate(s, t, pc);
    }
  }

  lemma WorkArrives(s: State, t: Tid, pc: Pc, c: Choice)
    requires !InPool(pc) && PcOk(s, pc) && (pc.WorkDrop? ==> pc.q in s.item)
    ensures PcOk(WorkEffect(s, t, pc, c), WorkNext(s, pc, c))
  {
    hide InPool;
  }

  lemma IdleArrives(s: State, t: Tid, c: Choice)
    requires Paired1(s)
    requires match c
             case Finalize(q) => q in s.open case RunTask(q) => q in s.tasks case RunEvent(q) => q in s.item
             case _ => true
    ensures PcOk(IdleEffect(s, c), IdleNext(s, c))
  {
  }

  lemma Arrives(s: State, t: Tid, c: Choice)
    requires Enabled(s, t, c) && PcOk(s, s.pc[t]) && PoolLists(s) && Paired1(s)
    requires s.pc[t].TakeQuery? ==> forall q | q in QueryOf(s.pc[t].k) :: q !in QueriesOf(s, s.pc[t].it.pool)
    ensures PcOk(Effect(s, t, s.pc[t], c), NextPc(s, s.pc[t], c))
  {
    hide PoolNext; hide PoolEffect; hide WorkNext; hide WorkEffect; hide IdleNext; hide IdleEffect; hide PcOk;
    hide PoolLists; hide Paired1; hide InPool;
    if s.pc[t] == Idle {
      IdleArrives(s, t, c);
    } else if InPool(s.pc[t]) {
      PoolArrives(s, t, s.pc[t]);
    } else {
      WorkArrives(s, t, s.pc[t], c);
    }
  }

  /** Two threads hold neither the same pool lock nor `w_lock` together. */
  lemma Exclusive(s: State, t: Tid, u: Tid)
    requires PoolLocks(s) && WLock(s) && t in s.pc && u in s.pc && t != u
    ensures PoolOf(s.pc[t]).Some? ==> PoolOf(s.pc[u]) != PoolOf(s.pc[t])
    ensures !(HoldsW(s.pc[t]) && HoldsW(s.pc[u]))
  {
    hide PoolOf; hide HoldsW;
  }

  /** The query a thread will go on with is not one that is queued. */
  lemma OtherQueries(s: State, t: Tid, v: map<Query, QPlace>)
    requires t in s.pc && s.pc[t].TakeQuery? && PoolLists(s) && QueriesAt(s, v)
    ensures forall q | q in QueryOf(s.pc[t].k) :: q !in QueriesOf(s, s.pc[t].it.pool)
  {
    hide QueriesAt; hide QueriesOf;
    forall q | q in QueryOf(s.pc[t].k) ensures q !in QueriesOf(s, s.pc[t].it.pool) {
      HeldOnly(s, q, v, t);
    }
  }

  lemma LocalKept(s: State, t: Tid, c: Choice, v: map<Query, QPlace>)
    requires Enabled(s, t, c) && t in s.pc && PoolLists(s) && Local(s) && Paired1(s) && QueriesAt(s, v) && PoolLocks(s)
             && WLock(s)
    ensures Local(Do(s, t, c))
  {
    hide PoolLists; hide Paired1; hide QueriesAt; hide PoolLocks; hide WLock; hide Effect; hide NextPc; hide Enabled;
    hide PcOk;
    hide PoolOf; hide HoldsW; hide HeldQ; hide ItemsOf; hide QueriesOf;
    var s', e, pc := Do(s, t, c), Effect(s, t, s.pc[t], c), s.pc[t];
    if pc.TakeQuery? {
      OtherQueries(s, t, v);
    }
    Arrives(s, t, c);
    EffectFrame(s, t, pc, c);
    PcSame(e, s', NextPc(s, pc, c));
    forall u | u in s'.pc ensures PcOk(s', s'.pc[u]) {
      if u != t {
        Exclusive(s, t, u);
        if pc.Pair? {
          HeldOnly(s, pc.q, v, t);
        }
        PcOkFrame(s, e, s.pc[u]);
        PcSame(e, s', s.pc[u]);
      }
    }
  }

  lemma PcSame(s: State, s': State, c: Pc)
    requires PcOk(s, c) && s' == s.(pc := s'.pc)
    ensures PcOk(s', c)
  {
  }

  lemma Paired1Kept(s: State, t: Tid, c: Choice)
    requires Enabled(s, t, c) && Local(s) && Paired1(s)
    ensures Paired1(Do(s, t, c))
  {
    hide Local; hide NextPc; hide PoolEffect; hide WorkEffect; hide IdleEffect; hide Paired1;
    LocalAt(s, t);
    var pc := s.pc[t];
    if pc == Idle {
      IdlePaired(s, c);
    } else if InPool(pc) {
      PoolPaired(s, t, pc);
    } else {
      WorkPaired(s, t, pc, c);
    }
    PairedSame(Effect(s, t, pc, c), Do(s, t, c));
  }

  lemma PairedSame(s: State, s': State)
    requires Paired1(s) && s' == s.(pc := s'.pc)
    ensures Paired1(s')
  {
  }

  lemma IdlePaired(s: State, c: Choice)
    requires Paired1(s)
    ensures Paired1(IdleEffect(s, c))
  {
  }

  lemma PoolPairedEarly(s: State, t: Tid, pc: Pc)
    requires Early(pc)
    requires Paired1(s) && PcOk(s, pc)
    ensures Paired1(PoolEffect(s, t, pc))
  {
  }

  lemma PoolPairedLate(s: State, t: Tid, pc: Pc)
    requires !Early(pc)
    requires Paired1(s) && PcOk(s, pc)
    ensures Paired1(PoolEffect(s, t, pc))
  {
  }

  lemma PoolPaired(s: State, t: Tid, pc: Pc)
    requires Paired1(s) && PcOk(s, pc)
    ensures Paired1(PoolEffect(s, t, pc))
  {
    hide PoolEffect; hide PcOk; hide Paired1;
    if Early(pc) {
      PoolPairedEarly(s, t, pc);
    } else {
      PoolPairedLate(s, t, pc);
    }
  }

  lemma WorkPaired(s: State, t: Tid, pc: Pc, c: Choice)
    requires Paired1(s) && PcOk(s, pc)
    ensures Paired1(WorkEffect(s, t, pc, c))
  {
  }

  // ---------- places of connections ----------

  /** One connection went from one place to another, as far as the places outside threads are concerned. */
  ghost predicate ItemDelta(s: State, s': State, it0: Item, from: Place, to: Place) {
    forall it: Item, pl: Place | !pl.With? :: AtPlace(s', it, pl)
      <==> (AtPlace(s, it, pl) && !(it == it0 && pl == from)) || (it == it0 && pl == to)
  }

  /** The other threads hold what they held. */
  ghost predicate OthersHold(s: State, s': State, t: Tid) {
    s'.pc.Keys == s.pc.Keys
    && forall u | u in s.pc && u != t :: s'.pc[u] == s.pc[u] && Held(s'.item, s.pc[u]) == Held(s.item, s.pc[u])
  }

  lemma ItemsMove(s: State, s': State, t: Tid, w: map<Item, Place>, it0: Item, from: Place, to: Place)
    requires ItemsAt(s, w) && AtPlace(s, it0, from) && s'.conns == s.conns && t in s.pc && OthersHold(s, s', t)
    requires ItemDelta(s, s', it0, from, to) && (from == With(t) || to == With(t)) && from != to
    requires Held(s'.item, s'.pc[t]) == if to == With(t) then Held(s.item, s.pc[t]) + {it0}
               else Held(s.item, s.pc[t]) - {it0}
    requires (to.With? ==> to == With(t)) && (from.With? ==> from == With(t))
    ensures ItemsAt(s', w[it0 := to])
  {
    hide Held; hide ItemsOf;
    assert it0 in w && w[it0] == from;
    forall it, pl ensures AtPlace(s', it, pl) <==> it in w[it0 := to] && w[it0 := to][it] == pl {
      assert AtPlace(s, it, pl) <==> it in w && w[it] == pl;
      if !pl.With? {
        assert AtPlace(s', it, pl) <==> (AtPlace(s, it, pl) && !(it == it0 && pl == from)) || (it == it0 && pl == to);
      } else if pl.t != t {
        assert AtPlace(s', it, pl) <==> AtPlace(s, it, pl);
      } else {
        assert AtPlace(s', it, pl) <==> it in Held(s'.item, s'.pc[t]);
        assert AtPlace(s, it, pl) <==> it in Held(s.item, s.pc[t]);
      }
    }
  }

  lemma ItemsStay(s: State, s': State, t: Tid, w: map<Item, Place>)
    requires ItemsAt(s, w) && s'.conns == s.conns && t in s.pc && OthersHold(s, s', t)
    requires forall it: Item, pl: Place | !pl.With? :: AtPlace(s', it, pl) <==> AtPlace(s, it, pl)
    requires Held(s'.item, s'.pc[t]) == Held(s.item, s.pc[t])
    ensures ItemsAt(s', w)
  {
    hide Held; hide ItemsOf;
    forall it, pl ensures AtPlace(s', it, pl) <==> it in w && w[it] == pl {
      assert AtPlace(s, it, pl) <==> it in w && w[it] == pl;
      if pl.With? {
        assert AtPlace(s', it, pl) <==> AtPlace(s, it, pl);
      }
    }
  }

  datatype Move = Stay | Moves(it: Item, from: Place, to: Place)

  /** Which connection a step moves. */
  function ItemMove(s: State, t: Tid, pc: Pc, c: Choice): Move {
    match pc
    case Idle =>
      (match c
       case Finalize(q) => if q in s.open then Moves(s.open[q], Open(q), With(t)) else Stay
       case RunTask(q) => if q.fetch && q in s.item then Moves(s.item[q], Tasked(q), With(t)) else Stay
       case RunEvent(q) => if q in s.item then Moves(s.item[q], Evented(q), With(t)) else Stay
       case _ => Stay)
    case TakeItem(q) => if ItemsOf(s, q.pool) != [] then Moves(ItemsOf(s, q.pool)[0], Free, With(t)) else Stay
    case PutItem(it, _) => Moves(it, With(t), Free)
    case Publish(it, q, _, _) => Moves(it, With(t), Paired(q))
    case SendNow(it, q, _) => Moves(it, With(t), Evented(q))
    case WorkDrop(q, _) => if q in s.item then Moves(s.item[q], Paired(q), With(t)) else Stay
    case Sent(it, q) => if q.fetch then Moves(it, With(t), Tasked(q)) else Stay
    case Resume(it, q) => if c.More? then Moves(it, With(t), Evented(q)) else Stay
    case Opening(it, q) => Moves(it, With(t), Open(q))
    case _ => Stay
  }

  /** What a step does to the places outside threads. */
  ghost predicate MoveShown(s: State, e: State, m: Move) {
    match m
    case Stay => forall it: Item, pl: Place | !pl.With? :: AtPlace(e, it, pl) <==> AtPlace(s, it, pl)
    case Moves(it, from, to) => AtPlace(s, it, from) && ItemDelta(s, e, it, from, to)
  }

  lemma IdleMoves(s: State, t: Tid, c: Choice)
    requires Enabled(s, t, c) && s.pc[t] == Idle && Paired1(s)
    ensures MoveShown(s, IdleEffect(s, c), ItemMove(s, t, Idle, c))
  {
  }

  /** The query and the connection the step is about are with the thread. */
  ghost predicate OnlyHere(s: State, t: Tid, pc: Pc) {
    (forall q | q in HeldQ(pc) :: q !in s.waiting && q !in s.tasks && q !in s.events && q !in s.open)
    && (forall it | it in Held(s.item, pc) :: AtPlace(s, it, With(t)) && it !in ItemsOf(s, it.pool))
  }

  lemma PoolMoves(s: State, t: Tid, pc: Pc, c: Choice)
    requires InPool(pc) && PcOk(s, pc) && PoolLists(s) && OnlyHere(s, t, pc)
    ensures MoveShown(s, PoolEffect(s, t, pc), ItemMove(s, t, pc, c))
  {
    hide PoolLists; hide OnlyHere; hide MoveShown;
    match pc
    case TakeItem(q) => TakeItemMoves(s, t, pc);
    case PutItem(it, k) => PutItemMoves(s, t, pc);
    case Publish(it, q, next, k) => PublishMoves(s, t, pc);
    case SendNow(it, q, k) => SendNowMoves(s, t, pc);
    case Pair(it, q, k) => PairStays(s, t, pc);
    case _ => PoolStays(s, t, pc);
  }

  lemma TakeItemMoves(s: State, t: Tid, pc: Pc)
    requires pc.TakeItem? && PcOk(s, pc) && PoolLists(s)
    ensures MoveShown(s, PoolEffect(s, t, pc), Moves(ItemsOf(s, pc.q.pool)[0], Free, With(t)))
  {
    var l := ItemsOf(s, pc.q.pool);
    OwnPoolItems(s, pc.q.pool);
    TailUnique(l);
    hide Unique; hide PoolLists;
    assert l[0] in l && l == [l[0]] + Tail(l);
  }

  lemma OwnPoolItems(s: State, p: Pool)
    requires PoolLists(s)
    ensures Unique(ItemsOf(s, p)) && forall x | x in ItemsOf(s, p) :: x.pool == p
  {
  }

  lemma PutItemMoves(s: State, t: Tid, pc: Pc)
    requires pc.PutItem? && OnlyHere(s, t, pc)
    ensures MoveShown(s, PoolEffect(s, t, pc), Moves(pc.it, With(t), Free))
  {
  }

  lemma PublishMoves(s: State, t: Tid, pc: Pc)
    requires pc.Publish? && PcOk(s, pc) && OnlyHere(s, t, pc)
    ensures MoveShown(s, PoolEffect(s, t, pc), Moves(pc.it, With(t), Paired(pc.q)))
  {
    assert pc.q in HeldQ(pc);
  }

  lemma SendNowMoves(s: State, t: Tid, pc: Pc)
    requires pc.SendNow? && PcOk(s, pc) && OnlyHere(s, t, pc)
    ensures MoveShown(s, PoolEffect(s, t, pc), Moves(pc.it, With(t), Evented(pc.q)))
  {
    assert pc.q in HeldQ(pc);
  }

  lemma PairStays(s: State, t: Tid, pc: Pc)
    requires pc.Pair? && OnlyHere(s, t, pc)
    ensures MoveShown(s, PoolEffect(s, t, pc), Stay)
  {
    assert pc.q in HeldQ(pc);
  }

  lemma PoolStaysEarly(s: State, t: Tid, pc: Pc)
    requires Early(pc)
    requires !(pc.TakeItem? || pc.PutItem? || pc.Publish? || pc.SendNow? || pc.Pair?)
    ensures MoveShown(s, PoolEffect(s, t, pc), Stay)
  {
  }

  lemma PoolStaysLate(s: State, t: Tid, pc: Pc)
    requires !Early(pc)
    requires !(pc.TakeItem? || pc.PutItem? || pc.Publish? || pc.SendNow? || pc.Pair?)
    ensures MoveShown(s, PoolEffect(s, t, pc), Stay)
  {
  }

  lemma PoolStays(s: State, t: Tid, pc: Pc)
    requires !(pc.TakeItem? || pc.PutItem? || pc.Publish? || pc.SendNow? || pc.Pair?)
    ensures MoveShown(s, PoolEffect(s, t, pc), Stay)
  {
    hide PoolEffect; hide AtPlace;
    if Early(pc) {
      PoolStaysEarly(s, t, pc);
    } else {
      PoolStaysLate(s, t, pc);
    }
  }

  lemma WorkMoves(s: State, t: Tid, pc: Pc, c: Choice)
    requires !InPool(pc) && pc != Idle && PcOk(s, pc) && Unique(s.waiting) && OnlyHere(s, t, pc)
             && (pc.WorkDrop? ==> pc.q in s.item)
    ensures MoveShown(s, WorkEffect(s, t, pc, c), ItemMove(s, t, pc, c))
  {
    hide Unique; hide OnlyHere; hide MoveShown; hide PcOk;
    match pc
    case WorkDrop(q, next) => WorkDropMoves(s, t, pc, c);
    case Sent(it, q) => SentMoves(s, t, pc, c);
    case Resume(it, q) => ResumeMoves(s, t, pc, c);
    case Opening(it, q) => OpeningMoves(s, t, pc, c);
    case _ => WorkStays(s, t, pc, c);
  }

  lemma WorkDropMoves(s: State, t: Tid, pc: Pc, c: Choice)
    requires pc.WorkDrop? && PcOk(s, pc) && Unique(s.waiting) && pc.q in s.item
    ensures MoveShown(s, WorkEffect(s, t, pc, c), Moves(s.item[pc.q], Paired(pc.q), With(t)))
  {
    TailUnique(s.waiting);
    hide Unique;
    assert pc.q == s.waiting[0];
  }

  lemma SentMoves(s: State, t: Tid, pc: Pc, c: Choice)
    requires pc.Sent? && PcOk(s, pc) && OnlyHere(s, t, pc)
    ensures MoveShown(s, WorkEffect(s, t, pc, c), ItemMove(s, t, pc, c))
  {
    assert pc.q in HeldQ(pc);
  }

  lemma ResumeMoves(s: State, t: Tid, pc: Pc, c: Choice)
    requires pc.Resume? && PcOk(s, pc) && OnlyHere(s, t, pc)
    ensures MoveShown(s, WorkEffect(s, t, pc, c), ItemMove(s, t, pc, c))
  {
    assert pc.q in HeldQ(pc);
  }

  lemma OpeningMoves(s: State, t: Tid, pc: Pc, c: Choice)
    requires pc.Opening? && PcOk(s, pc) && OnlyHere(s, t, pc)
    ensures MoveShown(s, WorkEffect(s, t, pc, c), ItemMove(s, t, pc, c))
  {
    assert pc.q in HeldQ(pc);
  }

  lemma WorkStays(s: State, t: Tid, pc: Pc, c: Choice)
    requires !(pc.WorkDrop? || pc.Sent? || pc.Resume? || pc.Opening? || pc.Idle?)
    ensures MoveShown(s, WorkEffect(s, t, pc, c), Stay)
  {
  }

  /** What the thread itself holds after the step. */
  ghost predicate HeldFollows(item: map<Query, Item>, item': map<Query, Item>, t: Tid, pc: Pc, pc': Pc, m: Move) {
    match m
    case Stay => Held(item', pc') == Held(item, pc)
    case Moves(it, from, to) =>
      from != to && (from.With? ==> from == With(t) && it in Held(item, pc)) && (to.With? ==> to == With(t))
      && (from.With? || to.With?)
      && Held(item', pc') == if to == With(t) then Held(item, pc) + {it} else Held(item, pc) - {it}
  }

  lemma IdleHeld(s: State, t: Tid, c: Choice)
    requires Enabled(s, t, c) && s.pc[t] == Idle && Paired1(s)
    ensures HeldFollows(s.item, IdleEffect(s, c).item, t, Idle, IdleNext(s, c), ItemMove(s, t, Idle, c))
  {
  }

  lemma PoolHeldEarly(s: State, t: Tid, pc: Pc, c: Choice)
    requires Early(pc)
    requires InPool(pc) && PcOk(s, pc)
    ensures HeldFollows(s.item, PoolEffect(s, t, pc).item, t, pc, PoolNext(s, pc), ItemMove(s, t, pc, c))
  {
  }

  lemma PoolHeldLate(s: State, t: Tid, pc: Pc, c: Choice)
    requires !Early(pc)
    requires InPool(pc) && PcOk(s, pc)
    ensures HeldFollows(s.item, PoolEffect(s, t, pc).item, t, pc, PoolNext(s, pc), ItemMove(s, t, pc, c))
  {
  }

  lemma PoolHeld(s: State, t: Tid, pc: Pc, c: Choice)
    requires InPool(pc) && PcOk(s, pc)
    ensures HeldFollows(s.item, PoolEffect(s, t, pc).item, t, pc, PoolNext(s, pc), ItemMove(s, t, pc, c))
  {
    hide PoolEffect; hide PoolNext; hide InPool; hide PcOk; hide Held; hide ItemMove;
    if Early(pc) {
      PoolHeldEarly(s, t, pc, c);
    } else {
      PoolHeldLate(s, t, pc, c);
    }
  }

  lemma WorkHeldInside(s: State, t: Tid, pc: Pc, c: Choice)
    requires AtWork(pc)
    requires !InPool(pc) && pc != Idle && PcOk(s, pc) && (pc.WorkDrop? ==> pc.q in s.item)
             && (pc.WorkIn? ==> s.waiting != [])
    ensures HeldFollows(s.item, WorkEffect(s, t, pc, c).item, t, pc, WorkNext(s, pc, c), ItemMove(s, t, pc, c))
  {
  }

  lemma WorkHeldOutside(s: State, t: Tid, pc: Pc, c: Choice)
    requires !AtWork(pc)
    requires !InPool(pc) && pc != Idle && PcOk(s, pc) && (pc.WorkDrop? ==> pc.q in s.item)
             && (pc.WorkIn? ==> s.waiting != [])
    ensures HeldFollows(s.item, WorkEffect(s, t, pc, c).item, t, pc, WorkNext(s, pc, c), ItemMove(s, t, pc, c))
  {
  }

  lemma WorkHeld(s: State, t: Tid, pc: Pc, c: Choice)
    requires !InPool(pc) && pc != Idle && PcOk(s, pc) && (pc.WorkDrop? ==> pc.q in s.item)
             && (pc.WorkIn? ==> s.waiting != [])
    ensures HeldFollows(s.item, WorkEffect(s, t, pc, c).item, t, pc, WorkNext(s, pc, c), ItemMove(s, t, pc, c))
  {
    hide WorkEffect; hide WorkNext; hide InPool; hide PcOk; hide Held; hide ItemMove;
    if AtWork(pc) {
      WorkHeldInside(s, t, pc, c);
    } else {
      WorkHeldOutside(s, t, pc, c);
    }
  }

  lemma Here(s: State, t: Tid, w: map<Item, Place>, v: map<Query, QPlace>)
    requires t in s.pc && ItemsAt(s, w) && QueriesAt(s, v) && Paired1(s)
    ensures OnlyHere(s, t, s.pc[t])
  {
    hide HeldQ; hide Held; hide ItemsAt; hide QueriesAt;
    forall q | q in HeldQ(s.pc[t]) ensures q !in s.waiting && q !in s.tasks && q !in s.events && q !in s.open {
      HeldOnly(s, q, v, t);
    }
    forall it | it in Held(s.item, s.pc[t]) ensures AtPlace(s, it, With(t)) && it !in ItemsOf(s, it.pool) {
      ItemHeldOnly(s, it, w, t);
    }
  }

  lemma MoveSame(s: State, e: State, e': State, m: Move)
    requires MoveShown(s, e, m) && e' == e.(pc := e'.pc)
    ensures MoveShown(s, e', m)
  {
    forall it: Item, pl: Place | !pl.With? ensures AtPlace(e', it, pl) <==> AtPlace(e, it, pl) {
    }
  }

  lemma HeldFrame(item: map<Query, Item>, item': map<Query, Item>, c: Pc)
    requires forall q | q in HeldQ(c) :: (q in item <==> q in item') && (q in item ==> item[q] == item'[q])
    ensures Held(item, c) == Held(item', c)
  {
  }

  lemma Others(s: State, t: Tid, c: Choice, v: map<Query, QPlace>)
    requires Enabled(s, t, c) && t in s.pc && QueriesAt(s, v) && Local(s)
    ensures OthersHold(s, Do(s, t, c), t)
  {
    hide HeldQ; hide Held; hide QueriesAt; hide Enabled; hide Effect; hide NextPc; hide Local;
    var s', pc := Do(s, t, c), s.pc[t];
    LocalAt(s, t);
    EffectFrame(s, t, pc, c);
    forall u | u in s.pc && u != t ensures Held(s'.item, s.pc[u]) == Held(s.item, s.pc[u]) {
      if pc.Pair? {
        HeldOnly(s, pc.q, v, t);
      }
      HeldFrame(s.item, s'.item, s.pc[u]);
    }
  }

  lemma EffectConns(s: State, t: Tid, pc: Pc, c: Choice)
    ensures Effect(s, t, pc, c).conns == s.conns && Effect(s, t, pc, c).workers == s.workers
  {
    hide PoolEffect; hide WorkEffect; hide IdleEffect;
    IdleConns(s, c);
    PoolConns(s, t, pc);
    WorkConns(s, t, pc, c);
  }

  lemma IdleConns(s: State, c: Choice)
    ensures IdleEffect(s, c).conns == s.conns && IdleEffect(s, c).workers == s.workers
  {
  }

  lemma PoolConns(s: State, t: Tid, pc: Pc)
    ensures PoolEffect(s, t, pc).conns == s.conns && PoolEffect(s, t, pc).workers == s.workers
  {
    hide ItemsOf; hide QueriesOf; hide Tail;
  }

  lemma WorkConns(s: State, t: Tid, pc: Pc, c: Choice)
    ensures WorkEffect(s, t, pc, c).conns == s.conns && WorkEffect(s, t, pc, c).workers == s.workers
  {
    hide Results;
    if pc.WorkLock? || pc.WorkDrop? || pc.WorkOut? || pc.Send? {
    } else {
      WorkConnsLate(s, t, pc, c);
    }
  }

  lemma WorkConnsLate(s: State, t: Tid, pc: Pc, c: Choice)
    requires !pc.WorkLock? && !pc.WorkDrop? && !pc.WorkOut? && !pc.Send?
    ensures WorkEffect(s, t, pc, c).conns == s.conns && WorkEffect(s, t, pc, c).workers == s.workers
  {
    hide Results;
  }

  /** Every connection stays in exactly one place. */
  lemma ItemsKept(s: State, t: Tid, c: Choice, w: map<Item, Place>, v: map<Query, QPlace>)
    returns (w': map<Item, Place>)
    requires Enabled(s, t, c) && t in s.pc && ItemsAt(s, w) && QueriesAt(s, v) && Local(s) && PoolLists(s) && Paired1(s)
    ensures ItemsAt(Do(s, t, c), w')
  {
    hide ItemsAt; hide QueriesAt; hide Local; hide PoolLists; hide Paired1; hide PoolNext; hide PoolEffect;
    hide WorkNext; hide WorkEffect;
    hide IdleNext; hide IdleEffect; hide ItemMove; hide OthersHold; hide Held; hide OnlyHere; hide ItemDelta;
    hide PcOk; hide AtPlace;
    var s', e, pc := Do(s, t, c), Effect(s, t, s.pc[t], c), s.pc[t];
    var m := ItemMove(s, t, pc, c);
    LocalAt(s, t);
    Here(s, t, w, v);
    Others(s, t, c, v);
    EffectConns(s, t, pc, c);
    if pc == Idle {
      IdleMoves(s, t, c);
      IdleHeld(s, t, c);
    } else if InPool(pc) {
      PoolMoves(s, t, pc, c);
      PoolHeld(s, t, pc, c);
    } else {
      UniqueWaiting(s);
      WorkMoves(s, t, pc, c);
      WorkHeld(s, t, pc, c);
    }
    MoveSame(s, e, s', m);
    match m
    case Stay =>
      ItemsStay(s, s', t, w);
      w' := w;
    case Moves(it, from, to) =>
      ItemsMove(s, s', t, w, it, from, to);
      w' := w[it := to];
  }

  lemma UniqueWaiting(s: State)
    requires PoolLists(s)
    ensures Unique(s.waiting)
  {
  }

  // ---------- places of queries ----------

  datatype QMove = QStay | QMoves(q: Query, from: QPlace, to: QPlace) | QNew(q: Query)

  /** Which query a step moves. */
  function QueryMove(s: State, t: Tid, pc: Pc, c: Choice): QMove {
    match pc
    case Idle =>
      (match c
       case NewQuery(q) => QNew(q)
       case RunTask(q) => QMoves(q, InTask, HeldBy(t))
       case RunEvent(q) => QMoves(q, InEvent, HeldBy(t))
       case _ => QStay)
    case PutQuery(q) => QMoves(q, HeldBy(t), Queued)
    case TakeQuery(it, _) => if QueriesOf(s, it.pool) != [] then QMoves(QueriesOf(s, it.pool)[0], Queued, HeldBy(t))
      else QStay
    case Publish(it, q, _, _) => QMoves(q, HeldBy(t), Waiting)
    case SendNow(it, q, _) => QMoves(q, HeldBy(t), InEvent)
    case WorkDrop(q, _) => QMoves(q, Waiting, HeldBy(t))
    case Sent(it, q) => QMoves(q, HeldBy(t), InTask)
    case Resume(it, q) => if c.More? then QMoves(q, HeldBy(t), InEvent) else QStay
    case Opening(it, q) => QMoves(q, HeldBy(t), Done)
    case Calling(q) => QMoves(q, HeldBy(t), Done)
    case _ => QStay
  }

  /** The places after the move. */
  function Moved(v: map<Query, QPlace>, t: Tid, m: QMove): map<Query, QPlace> {
    match m
    case QStay => v
    case QMoves(q, _, to) => v[q := to]
    case QNew(q) => v[q := HeldBy(t)]
  }

  ghost predicate QDelta(s: State, s': State, q0: Query, from: QPlace, to: QPlace) {
    forall q: Query, pl: QPlace | !pl.HeldBy? ::
      QAt(s', q, pl) <==> (QAt(s, q, pl) && !(q == q0 && pl == from)) || (q == q0 && pl == to)
  }

  ghost predicate QMoveShown(s: State, e: State, t: Tid, m: QMove) {
    match m
    case QStay => e.known == s.known && forall q: Query, pl: QPlace | !pl.HeldBy? :: QAt(e, q, pl) <==> QAt(s, q, pl)
    case QMoves(q, from, to) => e.known == s.known && QDelta(s, e, q, from, to) && QAt(s, q, from)
    case QNew(q) => e.known == s.known + {q} && q !in s.known && forall x: Query, pl: QPlace | !pl.HeldBy? ::
      QAt(e, x, pl) <==> QAt(s, x, pl)
  }

  ghost predicate QHeldFollows(t: Tid, pc: Pc, pc': Pc, m: QMove) {
    match m
    case QStay => HeldQ(pc') == HeldQ(pc)
    case QMoves(q, from, to) =>
      from != to && (from.HeldBy? ==> from == HeldBy(t) && q in HeldQ(pc)) && (to.HeldBy? ==> to == HeldBy(t))
      && (from.HeldBy? || to.HeldBy?)
      && HeldQ(pc') == if to == HeldBy(t) then HeldQ(pc) + {q} else HeldQ(pc) - {q}
    case QNew(q) => HeldQ(pc') == HeldQ(pc) + {q}
  }

  lemma QueriesMove(s: State, s': State, t: Tid, v: map<Query, QPlace>, m: QMove) returns (v': map<Query, QPlace>)
    requires QueriesAt(s, v) && t in s.pc && s'.pc.Keys == s.pc.Keys
             && (forall u | u in s.pc && u != t :: s'.pc[u] == s.pc[u])
    requires QMoveShown(s, s', t, m) && QHeldFollows(t, s.pc[t], s'.pc[t], m)
    ensures QueriesAt(s', v') && v' == Moved(v, t, m) && (m.QMoves? ==> m.q in v && v[m.q] == m.from)
  {
    hide HeldQ; hide QueriesOf;
    v' := Moved(v, t, m);
    forall q, pl ensures QAt(s', q, pl) <==> q in v' && v'[q] == pl {
      assert QAt(s, q, pl) <==> q in v && v[q] == pl;
      if pl.HeldBy? {
        if pl.t == t {
          assert QAt(s', q, pl) <==> q in HeldQ(s'.pc[t]);
        } else {
          assert QAt(s', q, pl) <==> QAt(s, q, pl);
        }
      } else {
        assert m.QMoves? ==>
                 (QAt(s', q, pl) <==> (QAt(s, q, pl) && !(q == m.q && pl == m.from)) || (q == m.q && pl == m.to));
      }
      if m.QMoves? {
        assert QAt(s, m.q, m.from);
      }
    }
  }

  lemma IdleQueriesShown(s: State, t: Tid, c: Choice)
    requires Enabled(s, t, c) && s.pc[t] == Idle
    ensures QMoveShown(s, IdleEffect(s, c), t, QueryMove(s, t, Idle, c))
  {
    hide ItemsOf; hide HeldQ;
  }

  lemma IdleQueriesHeld(s: State, t: Tid, c: Choice)
    requires Enabled(s, t, c) && s.pc[t] == Idle
    ensures QHeldFollows(t, Idle, IdleNext(s, c), QueryMove(s, t, Idle, c))
  {
  }

  lemma IdleQueries(s: State, t: Tid, c: Choice)
    requires Enabled(s, t, c) && s.pc[t] == Idle
    ensures QMoveShown(s, IdleEffect(s, c), t, QueryMove(s, t, Idle, c))
            && QHeldFollows(t, Idle, IdleNext(s, c), QueryMove(s, t, Idle, c))
  {
    hide Enabled; hide IdleEffect; hide IdleNext; hide QueryMove; hide QMoveShown; hide QHeldFollows;
    IdleQueriesShown(s, t, c);
    IdleQueriesHeld(s, t, c);
  }

  lemma PoolQueries(s: State, t: Tid, pc: Pc, c: Choice)
    requires InPool(pc) && PcOk(s, pc) && PoolLists(s) && t in s.pc && s.pc[t] == pc && Unique(s.waiting)
    requires forall q | q in HeldQ(pc) :: q !in s.waiting && q !in s.events && q !in QueriesOf(s, q.pool)
    requires pc.TakeQuery? ==> forall q | q in QueryOf(pc.k) :: q !in QueriesOf(s, pc.it.pool)
    ensures QMoveShown(s, PoolEffect(s, t, pc), t, QueryMove(s, t, pc, c))
  {
    hide PoolLists; hide QDelta; hide PoolEffect;
    PoolKnown(s, t, pc);
    match pc
    case PutQuery(q) => PutQueryMoves(s, t, pc);
    case TakeQuery(it, k) => TakeQueryMoves(s, t, pc);
    case Publish(it, q, next, k) => PublishQuery(s, t, pc);
    case SendNow(it, q, k) => SendQuery(s, t, pc);
    case _ => PoolQuiet(s, t, pc, c);
  }

  lemma PoolKnown(s: State, t: Tid, pc: Pc)
    ensures PoolEffect(s, t, pc).known == s.known
  {
    hide ItemsOf; hide QueriesOf; hide Tail;
  }

  /** The other steps leave the places of queries alone. */
  lemma PoolQuiet(s: State, t: Tid, pc: Pc, c: Choice)
    requires InPool(pc) && !(pc.PutQuery? || pc.TakeQuery? || pc.Publish? || pc.SendNow?)
    ensures QMoveShown(s, PoolEffect(s, t, pc), t, QueryMove(s, t, pc, c))
  {
    hide PoolEffect; hide QueriesOf;
    PoolQuietFields(s, t, pc);
    var e := PoolEffect(s, t, pc);
    forall q: Query ensures QueriesOf(e, q.pool) == QueriesOf(s, q.pool) {
      SameQueries(s, e, q.pool);
    }
  }

  lemma PoolQuietFields(s: State, t: Tid, pc: Pc)
    requires !(pc.PutQuery? || pc.TakeQuery? || pc.Publish? || pc.SendNow?)
    ensures var e := PoolEffect(s, t, pc);
            e.queries == s.queries && e.waiting == s.waiting && e.tasks == s.tasks && e.events == s.events
            && e.called == s.called
            && e.known == s.known
  {
  }

  lemma SameQueries(s: State, e: State, p: Pool)
    requires e.queries == s.queries
    ensures QueriesOf(e, p) == QueriesOf(s, p)
  {
  }

  lemma PutQueryMoves(s: State, t: Tid, pc: Pc)
    requires pc.PutQuery? && t in s.pc && s.pc[t] == pc
    ensures QDelta(s, PoolEffect(s, t, pc), pc.q, HeldBy(t), Queued)
  {
  }

  lemma TakeQueryMoves(s: State, t: Tid, pc: Pc)
    requires pc.TakeQuery? && PcOk(s, pc) && PoolLists(s)
    ensures QDelta(s, PoolEffect(s, t, pc), QueriesOf(s, pc.it.pool)[0], Queued, HeldBy(t))
    ensures QAt(s, QueriesOf(s, pc.it.pool)[0], Queued)
  {
    var l := QueriesOf(s, pc.it.pool);
    OwnPoolQueries(s, pc.it.pool);
    TailUnique(l);
    hide Unique; hide PoolLists;
    assert l[0] in l && l == [l[0]] + Tail(l);
  }

  lemma OwnPoolQueries(s: State, p: Pool)
    requires PoolLists(s)
    ensures Unique(QueriesOf(s, p)) && forall x | x in QueriesOf(s, p) :: x.pool == p
  {
  }

  lemma PublishQuery(s: State, t: Tid, pc: Pc)
    requires pc.Publish? && PcOk(s, pc)
    ensures QDelta(s, PoolEffect(s, t, pc), pc.q, HeldBy(t), Waiting)
  {
  }

  lemma SendQuery(s: State, t: Tid, pc: Pc)
    requires pc.SendNow?
    ensures QDelta(s, PoolEffect(s, t, pc), pc.q, HeldBy(t), InEvent)
  {
  }

  lemma PoolHeldQEarly(s: State, t: Tid, pc: Pc, c: Choice)
    requires Early(pc)
    requires InPool(pc) && PcOk(s, pc)
    ensures QHeldFollows(t, pc, PoolNext(s, pc), QueryMove(s, t, pc, c))
  {
  }

  lemma PoolHeldQLate(s: State, t: Tid, pc: Pc, c: Choice)
    requires !Early(pc)
    requires InPool(pc) && PcOk(s, pc)
    ensures QHeldFollows(t, pc, PoolNext(s, pc), QueryMove(s, t, pc, c))
  {
    if pc.Release? {
      AfterFree(pc.k);
    }
  }

  lemma PoolHeldQ(s: State, t: Tid, pc: Pc, c: Choice)
    requires InPool(pc) && PcOk(s, pc)
    ensures QHeldFollows(t, pc, PoolNext(s, pc), QueryMove(s, t, pc, c))
  {
    hide PoolEffect; hide PoolNext; hide InPool; hide PcOk; hide HeldQ; hide QueryMove;
    if Early(pc) {
      PoolHeldQEarly(s, t, pc, c);
    } else {
      PoolHeldQLate(s, t, pc, c);
    }
  }

  lemma WorkQueries(s: State, t: Tid, pc: Pc, c: Choice)
    requires !InPool(pc) && pc != Idle && PcOk(s, pc) && Unique(s.waiting) && t in s.pc && s.pc[t] == pc
    ensures QMoveShown(s, WorkEffect(s, t, pc, c), t, QueryMove(s, t, pc, c))
  {
    hide QDelta; hide Unique; hide PcOk;
    match pc
    case WorkDrop(q, next) => DropQuery(s, t, pc, c);
    case Sent(it, q) => SentQuery(s, t, pc, c);
    case Resume(it, q) => ResumedQuery(s, t, pc, c);
    case Opening(it, q) => AnsweredQuery(s, t, pc, c);
    case Calling(q) => AnsweredQuery(s, t, pc, c);
    case _ =>
  }

  lemma DropQuery(s: State, t: Tid, pc: Pc, c: Choice)
    requires pc.WorkDrop? && PcOk(s, pc) && Unique(s.waiting)
    ensures QDelta(s, WorkEffect(s, t, pc, c), pc.q, Waiting, HeldBy(t)) && QAt(s, pc.q, Waiting)
  {
    TailUnique(s.waiting);
    hide Unique;
    assert pc.q == s.waiting[0];
  }

  lemma SentQuery(s: State, t: Tid, pc: Pc, c: Choice)
    requires pc.Sent? && t in s.pc && s.pc[t] == pc
    ensures QMoveShown(s, WorkEffect(s, t, pc, c), t, QueryMove(s, t, pc, c))
  {
    hide QueriesOf;
    OtherPlaces(s, WorkEffect(s, t, pc, c), s.waiting, s.tasks + {pc.q}, s.events, s.called);
  }

  lemma ResumedQuery(s: State, t: Tid, pc: Pc, c: Choice)
    requires pc.Resume? && t in s.pc && s.pc[t] == pc
    ensures QMoveShown(s, WorkEffect(s, t, pc, c), t, QueryMove(s, t, pc, c))
  {
    hide QueriesOf; hide Results;
    OtherPlaces(s, WorkEffect(s, t, pc, c), s.waiting, s.tasks, if c.More? then s.events + {pc.q}
      else s.events, s.called);
  }

  lemma AnsweredQuery(s: State, t: Tid, pc: Pc, c: Choice)
    requires (pc.Opening? || pc.Calling?) && t in s.pc && s.pc[t] == pc
    ensures QMoveShown(s, WorkEffect(s, t, pc, c), t, QueryMove(s, t, pc, c))
  {
    hide QueriesOf; hide Results; hide WorkEffect;
    assert QAt(s, pc.q, HeldBy(t));
    AnswerIs(s, t, pc, c);
    OtherPlaces(s, WorkEffect(s, t, pc, c), s.waiting, s.tasks, s.events, s.called + multiset{pc.q});
  }

  lemma AnswerIs(s: State, t: Tid, pc: Pc, c: Choice)
    requires pc.Opening? || pc.Calling?
    ensures var e := WorkEffect(s, t, pc, c);
            e.queries == s.queries && e.waiting == s.waiting && e.tasks == s.tasks && e.events == s.events
            && e.called == s.called + multiset{pc.q} && e.known == s.known
  {
  }

  lemma OtherPlaces(s: State, e: State, waiting: seq<Query>, tasks: set<Query>, events: set<Query>,
        called: multiset<Query>)
    requires e.queries == s.queries && e.waiting == waiting && e.tasks == tasks && e.events == events
             && e.called == called
    ensures forall q: Query :: (QAt(e, q, Queued) <==> QAt(s, q, Queued)) && (QAt(e, q, Waiting) <==> q in waiting)
                               && (QAt(e, q, InTask) <==> q in tasks) && (QAt(e, q, InEvent) <==> q in events)
                               && (QAt(e, q, Done) <==> q in called)
  {
  }

  lemma WorkHeldQ(s: State, t: Tid, pc: Pc, c: Choice)
    requires !InPool(pc) && pc != Idle && (pc.WorkDrop? ==> pc.q in s.item) && (pc.Unpacking? ==> pc.q in s.item)
    ensures QHeldFollows(t, pc, WorkNext(s, pc, c), QueryMove(s, t, pc, c))
  {
  }

  lemma QMoveSame(s: State, e: State, e': State, t: Tid, m: QMove)
    requires QMoveShown(s, e, t, m) && e' == e.(pc := e'.pc)
    ensures QMoveShown(s, e', t, m)
  {
    forall q: Query, pl: QPlace | !pl.HeldBy? ensures QAt(e', q, pl) <==> QAt(e, q, pl) {
    }
  }

  /** Every query submitted so far stays in exactly one place. */
  lemma QueriesKept(s: State, t: Tid, c: Choice, v: map<Query, QPlace>) returns (v': map<Query, QPlace>)
    requires Enabled(s, t, c) && t in s.pc && QueriesAt(s, v) && Local(s) && PoolLists(s)
    ensures QueriesAt(Do(s, t, c), v')
    ensures var m := QueryMove(s, t, s.pc[t], c);
            v' == Moved(v, t, m) && (m.QMoves? ==> m.q in v && v[m.q] == m.from)
            && QHeldFollows(t, s.pc[t], NextPc(s, s.pc[t], c), m)
  {
    hide QueriesAt; hide Local; hide PoolLists; hide PoolNext; hide PoolEffect; hide WorkNext; hide WorkEffect;
    hide IdleNext; hide IdleEffect;
    hide QueryMove; hide HeldQ; hide QMoveShown; hide QHeldFollows; hide QueriesOf;
    var s', e, pc := Do(s, t, c), Effect(s, t, s.pc[t], c), s.pc[t];
    var m := QueryMove(s, t, pc, c);
    LocalAt(s, t);
    UniqueWaiting(s);
    if pc == Idle {
      IdleQueries(s, t, c);
    } else if InPool(pc) {
      forall q | q in HeldQ(pc) ensures q !in s.waiting && q !in s.events && q !in QueriesOf(s, q.pool) {
        HeldOnly(s, q, v, t);
      }
      if pc.TakeQuery? {
        OtherQueries(s, t, v);
      }
      PoolQueries(s, t, pc, c);
      PoolHeldQ(s, t, pc, c);
    } else {
      WorkQueries(s, t, pc, c);
      WorkHeldQ(s, t, pc, c);
    }
    QMoveSame(s, e, s', t, m);
    v' := QueriesMove(s, s', t, v, m);
  }

  lemma CalledEffect(s: State, t: Tid, pc: Pc, c: Choice)
    ensures var s' := Effect(s, t, pc, c);
            if pc.Opening? || pc.Calling? then s'.called == s.called + multiset{pc.q} && pc.q in HeldQ(pc)
              else s'.called == s.called
  {
    hide PoolEffect; hide WorkEffect; hide IdleEffect;
    IdleCalled(s, c);
    PoolCalled(s, t, pc);
    WorkCalled(s, t, pc, c);
  }

  lemma IdleCalled(s: State, c: Choice)
    ensures IdleEffect(s, c).called == s.called
  {
  }

  lemma PoolCalled(s: State, t: Tid, pc: Pc)
    ensures PoolEffect(s, t, pc).called == s.called
  {
    hide ItemsOf; hide QueriesOf; hide Tail;
  }

  lemma WorkCalled(s: State, t: Tid, pc: Pc, c: Choice)
    ensures WorkEffect(s, t, pc, c).called == if pc.Opening? || pc.Calling? then s.called + multiset{pc.q} else s.called
  {
    hide Results;
    if !pc.Opening? && !pc.Calling? {
      WorkNotCalled(s, t, pc, c);
    }
  }

  lemma WorkNotCalled(s: State, t: Tid, pc: Pc, c: Choice)
    requires !pc.Opening? && !pc.Calling?
    ensures WorkEffect(s, t, pc, c).called == s.called
  {
    hide Results;
  }

  lemma CalledKept(s: State, t: Tid, c: Choice, v: map<Query, QPlace>)
    requires Enabled(s, t, c) && t in s.pc && QueriesAt(s, v) && CalledOnce(s)
    ensures CalledOnce(Do(s, t, c))
  {
    hide QueriesAt; hide Effect; hide NextPc; hide HeldQ;
    CalledEffect(s, t, s.pc[t], c);
    if s.pc[t].Opening? || s.pc[t].Calling? {
      HeldOnly(s, s.pc[t].q, v, t);
    }
  }

  /** One step keeps everything. */
  lemma StepKeeps(s: State, t: Tid, c: Choice, w: map<Item, Place>, v: map<Query, QPlace>)
    returns (w': map<Item, Place>, v': map<Query, QPlace>)
    requires Enabled(s, t, c) && Sound(s) && ItemsAt(s, w) && QueriesAt(s, v)
    ensures var s' := Do(s, t, c); Sound(s') && ItemsAt(s', w') && QueriesAt(s', v')
  {
    hide Enabled; hide PoolLocks; hide WLock; hide PoolLists; hide NotBoth; hide Local; hide Paired1; hide Balanced;
    hide CalledOnce;
    hide ItemsAt; hide QueriesAt; hide Do;
    InPc(s, t, c);
    LocksKept(s, t, c);
    BalanceKept(s, t, c);
    ListsKept(s, t, c, w, v);
    LocalKept(s, t, c, v);
    Paired1Kept(s, t, c);
    CalledKept(s, t, c, v);
    RolesKept(s, t, c);
    w' := ItemsKept(s, t, c, w, v);
    v' := QueriesKept(s, t, c, v);
  }

  lemma InPc(s: State, t: Tid, c: Choice)
    requires Enabled(s, t, c)
    ensures t in s.pc
  {
  }

  lemma PoolRole(s: State, pc: Pc)
    requires InPool(pc)
    ensures !AtWork(PoolNext(s, pc)) && (ForWorker(pc) ==> ForWorker(PoolNext(s, pc)))
  {
    hide Held; hide HeldQ; hide QueriesOf; hide ItemsOf;
  }

  lemma WorkRole(s: State, pc: Pc, c: Choice)
    requires !InPool(pc) && pc != Idle
    ensures if AtWork(pc) then ForWorker(WorkNext(s, pc, c)) else !AtWork(WorkNext(s, pc, c))
    ensures ForWorker(pc) ==> AtWork(pc)
  {
  }

  lemma IdleRole(s: State, t: Tid, c: Choice)
    requires Enabled(s, t, c) && s.pc[t] == Idle
    ensures if t in s.workers then ForWorker(IdleNext(s, c)) else !AtWork(IdleNext(s, c))
  {
  }

  lemma RolesKept(s: State, t: Tid, c: Choice)
    requires Enabled(s, t, c) && t in s.pc && Roles(s)
    ensures Roles(Do(s, t, c))
  {
    hide Effect; hide Enabled; hide IdleNext; hide PoolNext; hide WorkNext; hide InPool; hide AtWork; hide ForWorker;
    var pc := s.pc[t];
    EffectConns(s, t, pc, c);
    if pc == Idle {
      IdleRole(s, t, c);
    } else if InPool(pc) {
      PoolRole(s, pc);
    } else {
      WorkRole(s, pc, c);
    }
  }

  // ---------- runs ----------

  lemma InitSound(s: State) returns (w: map<Item, Place>, v: map<Query, QPlace>)
    requires Init(s)
    ensures Sound(s) && ItemsAt(s, w) && QueriesAt(s, v)
  {
    w := map it | it in s.conns :: Free;
    v := map[];
    InitBalanced(s);
    InitLists(s);
    InitItems(s, w);
    InitQueries(s);
  }

  lemma InitBalanced(s: State)
    requires Init(s)
    ensures Balanced(s) && PoolLocks(s) && WLock(s) && Local(s) && Paired1(s) && CalledOnce(s)
  {
    assert PastWaiters(s) == {} && Posters(s) == {};
  }

  lemma InitLists(s: State)
    requires Init(s)
    ensures PoolLists(s) && NotBoth(s)
  {
    assert Unique<Item>([]) && Unique<Query>([]);
  }

  lemma InitItems(s: State, w: map<Item, Place>)
    requires Init(s) && w == map it | it in s.conns :: Free
    ensures ItemsAt(s, w)
  {
    forall it: Item, pl: Place ensures AtPlace(s, it, pl) <==> it in w && w[it] == pl {
      if it in ItemsOf(s, it.pool) {
        var i :| 0 <= i < |ItemsOf(s, it.pool)| && ItemsOf(s, it.pool)[i] == it;
        assert s.items[it.pool][i] in s.conns;
      }
    }
  }

  lemma InitQueries(s: State)
    requires Init(s)
    ensures QueriesAt(s, map[]) && forall q, pl :: !QAt(s, q, pl)
  {
    forall q: Query, pl: QPlace ensures !QAt(s, q, pl) {
    }
  }

  /** Every state of every run is sound. */
  lemma {:induction false} RunSound(states: seq<State>) returns (w: map<Item, Place>, v: map<Query, QPlace>)
    requires Run(states)
    ensures var s := states[|states| - 1]; Sound(s) && ItemsAt(s, w) && QueriesAt(s, v)
  {
    hide Sound; hide ItemsAt; hide QueriesAt; hide Init; hide Enabled; hide Do; hide Roles;
    var n := |states| - 1;
    if n == 0 {
      w, v := InitSound(states[0]);
    } else {
      var before := states[..n];
      assert before[0] == states[0];
      forall i | 0 <= i < |before| - 1 ensures Next(before[i], before[i + 1]) {
        assert Next(states[i], states[i + 1]);
      }
      w, v := RunSound(before);
      assert Next(states[n - 1], states[n - 1 + 1]);
      var t, c :| Enabled(states[n - 1], t, c) && states[n] == Do(states[n - 1], t, c);
      w, v := StepKeeps(states[n - 1], t, c, w, v);
    }
  }

  /** In every state of every run: every connection is in exactly one place, every query is in exactly one place and
      its callback has run once if that place is `Done` and never otherwise, and no worker is about to take a query
      from an empty list. */
  lemma RunSafe(states: seq<State>)
    requires Run(states)
    ensures var s := states[|states| - 1];
            (forall it | it in s.conns :: exists pl :: AtPlace(s, it, pl) && forall pl' ::
              AtPlace(s, it, pl') ==> pl' == pl)
            && (forall q | q in s.known :: exists pl :: QAt(s, q, pl) && forall pl' :: QAt(s, q, pl') ==> pl' == pl)
            && (forall q :: s.called[q] == (if QAt(s, q, Done) then 1 else 0))
            && (forall p :: ItemsOf(s, p) == [] || QueriesOf(s, p) == [])
            && (forall t | t in s.pc && PastWait(s.pc[t]) :: s.waiting != [])
  {
    hide AtPlace; hide Balanced; hide Init; hide Next; hide PastWait; hide Local; hide PoolLists; hide PoolLocks;
    hide WLock; hide Paired1;
    var s := states[|states| - 1];
    var w, v := RunSound(states);
    forall it | it in s.conns
      ensures exists pl :: AtPlace(s, it, pl) && forall pl' :: AtPlace(s, it, pl') ==> pl' == pl
    {
      assert AtPlace(s, it, w[it]);
    }
    forall q | q in s.known ensures exists pl :: QAt(s, q, pl) && forall pl' :: QAt(s, q, pl') ==> pl' == pl {
      assert QAt(s, q, v[q]);
    }
    forall t | t in s.pc && PastWait(s.pc[t]) ensures s.waiting != [] {
      NeverEmpty(s, t);
    }
  }
}

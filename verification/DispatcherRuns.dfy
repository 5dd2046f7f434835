/** Producers and workers sharing the dispatcher: every turn of a sift loop is a step, and the steps interleave. */
module DispatcherRuns {
  import opened TaskHeap
  import D = Dispatcher

  type Tid = nat

  /** Where a thread is in `put_task` or `get_task`. */
  datatype Pc =
    | Idle
    | PutLock(n: Task) | PutIn(n: Task) | PutUp(cur: nat) | PutUnlock | PutPost
    | GetLock | GetIn | GetDown(n: Task, cur: nat) | GetUnlock(n: Task)

  datatype Opt = None | Some(t: Tid)

  datatype State = State(
    nodes: seq<Task>,         // nodes[..size]
    lock: Opt,
    sem: nat,
    asked: multiset<Task>,    // tasks `put_task` has been called with
    put: multiset<Task>,      // tasks stored so far
    taken: multiset<Task>,    // tasks taken so far
    returned: multiset<Task>, // tasks `get_task` has returned
    pc: map<Tid, Pc>
  )

  datatype Choice = Go | NewTask(n: Task) | Worker

  predicate Enabled(s: State, t: Tid, c: Choice) {
    t in s.pc
    && match s.pc[t]
       case Idle => c.NewTask? || (c.Worker? && s.sem > 0)
       case PutLock(_) => c.Go? && s.lock.None?
       case PutIn(_) => c.Go? && |s.nodes| < D.MAX_TASKS
       case PutUp(cur) => c.Go? && cur < |s.nodes|
       case GetLock => c.Go? && s.lock.None?
       case GetIn => c.Go? && s.nodes != []
       case _ => c.Go?
  }

  predicate GoesUp(h: seq<Task>, cur: nat) {
    0 < cur < |h| && h[cur].priority > h[Parent(cur)].priority
  }

  predicate GoesDown(h: seq<Task>, cur: nat) {
    2 * cur + 1 < |h| && Larger(h, cur) != cur
  }

  function NextPc(s: State, pc: Pc, c: Choice): Pc {
    match pc
    case Idle => if c.NewTask? then PutLock(c.n) else if c.Worker? then GetLock else Idle
    case PutLock(n) => PutIn(n)
    case PutIn(n) => PutUp(|s.nodes|)
    case PutUp(cur) => if GoesUp(s.nodes, cur) then PutUp(Parent(cur)) else PutUnlock
    case PutUnlock => PutPost
    case PutPost => Idle
    case GetLock => GetIn
    case GetIn => if s.nodes == [] then GetIn else GetDown(s.nodes[0], 0)
    case GetDown(n, cur) => if GoesDown(s.nodes, cur) then GetDown(n, Larger(s.nodes, cur)) else GetUnlock(n)
    case GetUnlock(n) => Idle
  }

  function Effect(s: State, t: Tid, pc: Pc, c: Choice): State {
    match pc
    case Idle =>
      if c.NewTask? then s.(asked := s.asked + multiset{c.n})
      else if c.Worker? && s.sem > 0 then s.(sem := s.sem - 1) else s
    case PutLock(n) => s.(lock := Some(t))
    case PutIn(n) => s.(nodes := s.nodes + [n], put := s.put + multiset{n})
    case PutUp(cur) => if GoesUp(s.nodes, cur) then s.(nodes := Swap(s.nodes, cur, Parent(cur))) else s
    case PutUnlock => s.(lock := None)
    case PutPost => s.(sem := s.sem + 1)
    case GetLock => s.(lock := Some(t))
    case GetIn =>
      if s.nodes == [] then s
      else s.(nodes := s.nodes[0 := s.nodes[|s.nodes| - 1]][..|s.nodes| - 1], taken := s.taken + multiset{s.nodes[0]})
    case GetDown(n, cur) =>
      if GoesDown(s.nodes, cur) && Larger(s.nodes, cur) < |s.nodes|
        then s.(nodes := Swap(s.nodes, cur, Larger(s.nodes, cur))) else s
    case GetUnlock(n) => s.(lock := None, returned := s.returned + multiset{n})
  }

  function Do(s: State, t: Tid, c: Choice): State
    requires Enabled(s, t, c)
  {
    Effect(s, t, s.pc[t], c).(pc := s.pc[t := NextPc(s, s.pc[t], c)])
  }

  // ---------- the invariant ----------

  predicate Inside(pc: Pc) {
    pc.PutIn? || pc.PutUp? || pc.PutUnlock? || pc.GetIn? || pc.GetDown? || pc.GetUnlock?
  }

  /** Stored, not yet posted. */
  predicate Unposted(pc: Pc) { pc.PutUp? || pc.PutUnlock? || pc.PutPost? }

  /** Past `sem_wait`, nothing taken yet. */
  predicate Owed(pc: Pc) { pc.GetLock? || pc.GetIn? }

  ghost predicate Locked(s: State) {
    (forall t | t in s.pc && Inside(s.pc[t]) :: s.lock == Some(t))
    && (s.lock.Some? ==> s.lock.t in s.pc && Inside(s.pc[s.lock.t]))
  }

  /** The order the program point of the lock's holder promises. */
  ghost predicate OrderAt(h: seq<Task>, pc: Pc) {
    match pc
    case PutUp(cur) => UpOk(h, cur)
    case GetDown(_, cur) => DownOk(h, cur)
    case _ => HeapOk(h)
  }

  ghost predicate Ordered(s: State) {
    if s.lock.Some? && s.lock.t in s.pc then OrderAt(s.nodes, s.pc[s.lock.t]) else HeapOk(s.nodes)
  }

  ghost function Owing(s: State): set<Tid> {
    set t | t in s.pc && Owed(s.pc[t])
  }

  ghost function Posting(s: State): set<Tid> {
    set t | t in s.pc && Unposted(s.pc[t])
  }

  /** The size is the semaphore, the workers that have waited but not taken, and the producers that have stored but
      not posted. */
  ghost predicate Balanced(s: State) {
    |s.nodes| == s.sem + |Owing(s)| + |Posting(s)|
  }

  /** Nothing is lost and nothing appears. */
  ghost predicate Conserved(s: State) {
    s.put == multiset(s.nodes) + s.taken
  }

  /** The task a thread has been asked to store and has not stored yet. */
  function Asked(pc: Pc): multiset<Task> {
    match pc
    case PutLock(n) => multiset{n}
    case PutIn(n) => multiset{n}
    case _ => multiset{}
  }

  /** The task a thread has taken and is going to return. */
  function Taken(pc: Pc): multiset<Task> {
    match pc
    case GetDown(n, _) => multiset{n}
    case GetUnlock(n) => multiset{n}
    case _ => multiset{}
  }

  /** The tasks all threads together have been asked to store, or are going to return. */
  ghost function Carried(pc: map<Tid, Pc>, taken: bool): multiset<Task>
    decreases |pc|
  {
    if pc == map[] then multiset{}
    else var t :| t in pc; (if taken then Taken(pc[t]) else Asked(pc[t])) + Carried(pc - {t}, taken)
  }

  /** What is asked for is stored, and what is taken is returned. */
  ghost predicate HandedOver(s: State) {
    s.asked == s.put + Carried(s.pc, false) && s.taken == s.returned + Carried(s.pc, true)
  }

  ghost predicate Sound(s: State) {
    Locked(s) && Ordered(s) && Balanced(s) && Conserved(s) && HandedOver(s) && |s.nodes| <= D.MAX_TASKS
  }

  // ---------- steps ----------

  lemma LockedKept(s: State, t: Tid, c: Choice)
    requires Enabled(s, t, c) && Locked(s)
    ensures Locked(Do(s, t, c))
  {
    hide Larger; hide GoesUp; hide GoesDown;
  }

  lemma OneMore(a: set<Tid>, b: set<Tid>, t: Tid)
    requires a - {t} == b - {t}
    ensures |b| - |a| == Bit(t in b) - Bit(t in a)
  {
    var c := a - {t};
    assert if t in a then a == c + {t} else a == c;
    assert if t in b then b == c + {t} else b == c;
  }

  ghost function Bit(b: bool): int {
    if b then 1 else 0
  }

  lemma Lengths(s: State, t: Tid, c: Choice)
    requires Enabled(s, t, c)
    ensures var pc, pc', e := s.pc[t], NextPc(s, s.pc[t], c), Effect(s, t, s.pc[t], c);
            |e.nodes| - |s.nodes| == e.sem - s.sem + Bit(Owed(pc')) - Bit(Owed(pc))
              + Bit(Unposted(pc')) - Bit(Unposted(pc))
  {
    hide Larger;
  }

  lemma BalancedKept(s: State, t: Tid, c: Choice)
    requires Enabled(s, t, c) && t in s.pc && Balanced(s)
    ensures Balanced(Do(s, t, c))
  {
    hide Effect; hide NextPc; hide Enabled; hide Owed; hide Unposted;
    var s' := Do(s, t, c);
    Lengths(s, t, c);
    OneMore(Owing(s), Owing(s'), t);
    OneMore(Posting(s), Posting(s'), t);
  }

  /** Heap order and contents, for the step of the lock's holder. */
  ghost predicate Continues(s: State, e: State, pc': Pc) {
    OrderAt(e.nodes, pc') && e.put == multiset(e.nodes) + e.taken
  }

  lemma PutKeeps(s: State, t: Tid, pc: Pc, c: Choice)
    requires (pc.PutUp? || pc.PutIn?) && OrderAt(s.nodes, pc) && s.put == multiset(s.nodes) + s.taken
    ensures Continues(s, Effect(s, t, pc, c), NextPc(s, pc, c))
  {
    hide HeapOk; hide UpOk; hide DownOk; hide Swap; hide Larger;
    match pc
    case PutIn(n) => UpStart(s.nodes, n);
    case PutUp(cur) =>
      UpBound(s.nodes, cur);
      if GoesUp(s.nodes, cur) {
        UpSwap(s.nodes, cur);
        SwapSame(s.nodes, cur, Parent(cur));
      } else {
        UpDone(s.nodes, cur);
      }
  }

  lemma TakesRoot(s: State, t: Tid, pc: Pc, c: Choice)
    requires pc.GetIn? && s.nodes != []
    ensures NextPc(s, pc, c) == GetDown(s.nodes[0], 0) && s.nodes[0] in s.nodes
    ensures var e := Effect(s, t, pc, c);
            e.nodes == s.nodes[0 := s.nodes[|s.nodes| - 1]][..|s.nodes| - 1] && e.put == s.put
            && e.taken == s.taken + multiset{s.nodes[0]}
  {
  }

  lemma TakeKeeps(s: State, t: Tid, pc: Pc, c: Choice)
    requires pc.GetIn? && s.nodes != [] && OrderAt(s.nodes, pc) && s.put == multiset(s.nodes) + s.taken
    ensures Continues(s, Effect(s, t, pc, c), NextPc(s, pc, c))
  {
    hide HeapOk; hide UpOk; hide DownOk; hide Larger; hide Parent; hide Swap; hide Effect; hide NextPc;
    DownStart(s.nodes);
    TakesRoot(s, t, pc, c);
  }

  lemma DownKeeps(s: State, t: Tid, pc: Pc, c: Choice)
    requires pc.GetDown? && OrderAt(s.nodes, pc) && s.put == multiset(s.nodes) + s.taken
    ensures Continues(s, Effect(s, t, pc, c), NextPc(s, pc, c))
  {
    hide HeapOk; hide UpOk; hide DownOk; hide Swap; hide Larger;
    if GoesDown(s.nodes, pc.cur) {
      DownSwap(s.nodes, pc.cur);
      SwapSame(s.nodes, pc.cur, Larger(s.nodes, pc.cur));
    } else {
      DownDone(s.nodes, pc.cur);
    }
  }

  lemma UpBound(h: seq<Task>, cur: nat)
    requires UpOk(h, cur)
    ensures cur < |h|
  {
  }

  lemma OthersQuiet(s: State, t: Tid, pc: Pc, c: Choice)
    requires !(pc.PutUp? || pc.GetDown? || pc.PutIn? || pc.GetIn?)
    ensures var e := Effect(s, t, pc, c); e.nodes == s.nodes && e.put == s.put && e.taken == s.taken
  {
  }

  /** Whoever keeps the order: the thread that steps, or the holder of a lock that it neither takes nor releases. */
  lemma Held(s: State, t: Tid, c: Choice)
    requires Enabled(s, t, c) && t in s.pc && Locked(s)
    ensures var pc, pc', e := s.pc[t], NextPc(s, s.pc[t], c), Effect(s, t, s.pc[t], c);
            if Inside(pc) then s.lock == Some(t) && (if e.lock.None? then OrderAt(e.nodes, pc') == HeapOk(e.nodes)
                                                                     else e.lock == Some(t))
            else if e.lock == s.lock then true
            else s.lock.None? && e.lock == Some(t)
    ensures var pc, pc' := s.pc[t], NextPc(s, s.pc[t], c);
            if pc.PutUp? || pc.PutIn? || pc.GetIn? || pc.GetDown? then Inside(pc) && Inside(pc')
            else forall h :: OrderAt(h, pc) == OrderAt(h, pc') == HeapOk(h)
    ensures Inside(s.pc[t]) == (s.lock == Some(t))
  {
    hide HeapOk; hide UpOk; hide DownOk; hide Larger; hide GoesUp; hide GoesDown;
  }

  lemma OrderKept(s: State, t: Tid, c: Choice)
    requires Enabled(s, t, c) && t in s.pc && Locked(s) && Ordered(s) && Conserved(s)
    ensures Ordered(Do(s, t, c)) && Conserved(Do(s, t, c))
  {
    hide HeapOk; hide UpOk; hide DownOk; hide Swap; hide Larger; hide GoesUp; hide GoesDown; hide Effect; hide NextPc;
    hide Locked; hide OrderAt;
    var pc := s.pc[t];
    LockedKept(s, t, c);
    Held(s, t, c);
    if pc.PutUp? || pc.PutIn? {
      PutKeeps(s, t, pc, c);
    } else if pc.GetIn? {
      TakeKeeps(s, t, pc, c);
    } else if pc.GetDown? {
      DownKeeps(s, t, pc, c);
    } else {
      OthersQuiet(s, t, pc, c);
    }
  }

  lemma {:induction false} CarriedAt(pc: map<Tid, Pc>, t: Tid, taken: bool)
    requires t in pc
    ensures Carried(pc, taken) == (if taken then Taken(pc[t]) else Asked(pc[t])) + Carried(pc - {t}, taken)
    decreases |pc|
  {
    hide Taken; hide Asked;
    var u: Tid :| u in pc && Carried(pc, taken)
               == (if taken then Taken(pc[u]) else Asked(pc[u])) + Carried(pc - {u}, taken);
    if u != t {
      CarriedAt(pc - {u}, t, taken);
      CarriedAt(pc - {t}, u, taken);
      assert pc - {u} - {t} == pc - {t} - {u};
    }
  }

  /** What is asked for at one end has come out at the other, up to what the thread holds. */
  ghost predicate Hands(given: multiset<Task>, got: multiset<Task>, held: multiset<Task>, given': multiset<Task>,
        got': multiset<Task>, held': multiset<Task>) {
    given' + held + got == given + held' + got'
  }

  /** What a step does to the tasks a thread has been asked to store. */
  ghost predicate AskedMoves(s: State, pc: Pc, e: State, pc': Pc) {
    if pc.Idle? && pc'.PutLock? then e.asked == s.asked + multiset{pc'.n} && e.put == s.put
    else if pc.PutIn? then e.put == s.put + multiset{pc.n} && e.asked == s.asked && !pc'.PutLock? && !pc'.PutIn?
    else if pc.PutLock? then pc' == PutIn(pc.n) && e.asked == s.asked && e.put == s.put
    else !pc'.PutLock? && !pc'.PutIn? && e.asked == s.asked && e.put == s.put
  }

  /** And to those it has taken. */
  ghost predicate TakenMoves(s: State, pc: Pc, e: State, pc': Pc) {
    if pc.GetIn? then pc'.GetDown? && e.taken == s.taken + multiset{pc'.n} && e.returned == s.returned
    else if pc.GetUnlock? then
      e.returned == s.returned + multiset{pc.n} && e.taken == s.taken && !pc'.GetDown? && !pc'.GetUnlock?
    else if pc.GetDown? then
      (pc'.GetDown? || pc'.GetUnlock?) && pc'.n == pc.n && e.taken == s.taken && e.returned == s.returned
    else !pc'.GetDown? && !pc'.GetUnlock? && e.taken == s.taken && e.returned == s.returned
  }

  lemma StepMoves(s: State, t: Tid, c: Choice)
    requires Enabled(s, t, c)
    ensures var pc, pc', e := s.pc[t], NextPc(s, s.pc[t], c), Effect(s, t, s.pc[t], c);
            AskedMoves(s, pc, e, pc') && TakenMoves(s, pc, e, pc')
  {
    hide AskedMoves; hide TakenMoves; hide Effect; hide NextPc;
    AskedStep(s, t, c);
    TakenStep(s, t, c);
  }

  lemma AskedStep(s: State, t: Tid, c: Choice)
    requires Enabled(s, t, c)
    ensures AskedMoves(s, s.pc[t], Effect(s, t, s.pc[t], c), NextPc(s, s.pc[t], c))
  {
    hide Larger; hide GoesUp; hide GoesDown; hide Swap;
  }

  lemma TakenStep(s: State, t: Tid, c: Choice)
    requires Enabled(s, t, c)
    ensures TakenMoves(s, s.pc[t], Effect(s, t, s.pc[t], c), NextPc(s, s.pc[t], c))
  {
    hide Larger; hide GoesUp; hide GoesDown; hide Swap;
  }

  lemma MovesHand(s: State, pc: Pc, e: State, pc': Pc)
    requires AskedMoves(s, pc, e, pc') && TakenMoves(s, pc, e, pc')
    ensures Hands(s.asked, s.put, Asked(pc), e.asked, e.put, Asked(pc'))
    ensures Hands(s.taken, s.returned, Taken(pc), e.taken, e.returned, Taken(pc'))
  {
    hide Hands; hide AskedMoves; hide TakenMoves;
    AskedHand(s, pc, e, pc');
    TakenHand(s, pc, e, pc');
  }

  lemma AskedHand(s: State, pc: Pc, e: State, pc': Pc)
    requires AskedMoves(s, pc, e, pc')
    ensures Hands(s.asked, s.put, Asked(pc), e.asked, e.put, Asked(pc'))
  {
  }

  lemma TakenHand(s: State, pc: Pc, e: State, pc': Pc)
    requires TakenMoves(s, pc, e, pc')
    ensures Hands(s.taken, s.returned, Taken(pc), e.taken, e.returned, Taken(pc'))
  {
  }

  lemma HandsOver(given: multiset<Task>, got: multiset<Task>, held: multiset<Task>, given': multiset<Task>,
        got': multiset<Task>, held': multiset<Task>, others: multiset<Task>)
    requires Hands(given, got, held, given', got', held') && given == got + (held + others)
    ensures given' == got' + (held' + others)
  {
    forall x: Task ensures given'[x] == (got' + (held' + others))[x] {
      assert (given' + held + got)[x] == (given + held' + got')[x];
    }
  }

  lemma HandedKept(s: State, t: Tid, c: Choice)
    requires Enabled(s, t, c) && t in s.pc && HandedOver(s)
    ensures HandedOver(Do(s, t, c))
  {
    hide Effect; hide NextPc; hide Enabled; hide Asked; hide Taken; hide Carried; hide Hands;
    var s', pc, pc' := Do(s, t, c), s.pc[t], NextPc(s, s.pc[t], c);
    assert s'.pc - {t} == s.pc - {t};
    StepMoves(s, t, c);
    MovesHand(s, pc, Effect(s, t, pc, c), pc');
    CarriedAt(s.pc, t, false);
    CarriedAt(s'.pc, t, false);
    HandsOver(s.asked, s.put, Asked(pc), s'.asked, s'.put, Asked(pc'), Carried(s.pc - {t}, false));
    CarriedAt(s.pc, t, true);
    CarriedAt(s'.pc, t, true);
    HandsOver(s.taken, s.returned, Taken(pc), s'.taken, s'.returned, Taken(pc'), Carried(s.pc - {t}, true));
  }

  lemma StepKeeps(s: State, t: Tid, c: Choice)
    requires Enabled(s, t, c) && Sound(s)
    ensures Sound(Do(s, t, c))
  {
    hide Locked; hide Ordered; hide Balanced; hide Conserved; hide HandedOver; hide Larger;
    HandedKept(s, t, c);
    LockedKept(s, t, c);
    OrderKept(s, t, c);
    BalancedKept(s, t, c);
  }

  // ---------- runs ----------

  ghost predicate Init(s: State) {
    s.nodes == [] && s.lock == None && s.sem == 0 && s.asked == s.put == s.taken == s.returned == multiset{}
    && forall t | t in s.pc :: s.pc[t] == Idle
  }

  ghost predicate Next(s: State, s': State) {
    exists t, c :: Enabled(s, t, c) && s' == Do(s, t, c)
  }

  ghost predicate Run(states: seq<State>) {
    |states| > 0 && Init(states[0]) && forall i | 0 <= i < |states| - 1 :: Next(states[i], states[i + 1])
  }

  lemma {:induction false} NothingCarried(pc: map<Tid, Pc>, taken: bool)
    requires forall t | t in pc :: pc[t] == Idle
    ensures Carried(pc, taken) == multiset{}
    decreases |pc|
  {
    if t :| t in pc {
      CarriedAt(pc, t, taken);
      NothingCarried(pc - {t}, taken);
    }
  }

  lemma {:induction false} RunSound(states: seq<State>)
    requires Run(states)
    ensures Sound(states[|states| - 1])
  {
    var n := |states| - 1;
    if n == 0 {
      assert Owing(states[0]) == {} && Posting(states[0]) == {};
      NothingCarried(states[0].pc, false);
      NothingCarried(states[0].pc, true);
    } else {
      hide Sound; hide Init; hide Enabled; hide Do;
      var before := states[..n];
      assert before[0] == states[0];
      forall i | 0 <= i < |before| - 1 ensures Next(before[i], before[i + 1]) {
        assert Next(states[i], states[i + 1]);
      }
      RunSound(before);
      assert Next(states[n - 1], states[n - 1 + 1]);
      var t, c :| Enabled(states[n - 1], t, c) && states[n] == Do(states[n - 1], t, c);
      StepKeeps(states[n - 1], t, c);
    }
  }

  /** In every state of every run: the tasks asked for are those stored and those producers still hold, the tasks stored
      are those in the heap and those taken, and the tasks taken are those returned and those workers are going to
      return; whoever is about to take a task finds one; and the task it takes has the highest priority of all in the
      heap. */
  lemma RunSafe(states: seq<State>, t: Tid)
    requires Run(states)
    ensures var s := states[|states| - 1];
            s.asked == s.put + Carried(s.pc, false) && s.taken == s.returned + Carried(s.pc, true)
    ensures var s := states[|states| - 1]; s.put == multiset(s.nodes) + s.taken && (s.lock.None? ==> HeapOk(s.nodes))
    ensures var s := states[|states| - 1];
            t in s.pc && Owed(s.pc[t]) ==> s.nodes != []
    ensures var s := states[|states| - 1];
            t in s.pc && s.pc[t].GetIn? ==>
              Enabled(s, t, Go) && Do(s, t, Go).pc[t].GetDown? && Do(s, t, Go).pc[t].n in s.nodes
              && forall x | x in s.nodes :: x.priority <= Do(s, t, Go).pc[t].n.priority
  {
    hide Init; hide Next;
    var s := states[|states| - 1];
    RunSound(states);
    if t in s.pc && Owed(s.pc[t]) {
      assert t in Owing(s);
      if s.pc[t].GetIn? {
        RootMax(s.nodes);
      }
    }
  }
}

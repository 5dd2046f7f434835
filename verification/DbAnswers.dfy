/** What the driver and the callbacks get to see: every query is sent once, on a connection of its own pool, before its
    callback, which is given a result exactly if the driver has answered with one. */
module DbAnswers {
  import opened DbPool
  import opened DbPlaces
  import opened DbSafety

  /** How far a query has come. */
  datatype Stage = Unsent | ToDriver | ToWorker | Sending | Polled | Fetched | WithResult | WithoutResult | Over

  /** Its connection can be polled and may be asked without blocking. */
  predicate NonBlocking(s: State, q: Query) {
    q.pool in s.async && !q.ps
  }

  /** Sent once, on the connection it was paired with. */
  ghost predicate SentOnce(s: State, q: Query) {
    q in s.item && SentOn(s, q) == [s.item[q]]
  }

  predicate Answered(s: State, q: Query) {
    q in s.answered && s.answered[q]
  }

  ghost predicate StageOk(s: State, q: Query, st: Stage) {
    (st != Over ==> q !in s.handed)
    && match st
       case Unsent => SentOn(s, q) == []
       case ToDriver => SentOn(s, q) == [] && NonBlocking(s, q)
       case ToWorker => SentOn(s, q) == [] && !NonBlocking(s, q)
       case Sending => SentOnce(s, q)
       case Polled => SentOnce(s, q) && NonBlocking(s, q)
       case Fetched => SentOnce(s, q) && q.fetch
       case WithResult => SentOnce(s, q) && q.fetch && Answered(s, q)
       case WithoutResult => SentOnce(s, q) && (q.fetch ==> !Answered(s, q))
       case Over => SentOnce(s, q) && (q in s.handed <==> q.fetch && Answered(s, q))
  }

  function ThenStage(k: Then): Stage {
    match k
    case Stop => Unsent
    case Unpack(_) => Sending
    case Callback(_) => WithoutResult
  }

  /** The stage of a query in the hands of a thread. */
  function StageHeld(c: Pc, q: Query): Stage {
    match c
    case Submit(_) => Unsent
    case SubmitIn(_) => Unsent
    case TakeItem(_) => Unsent
    case PutQuery(_) => Unsent
    case Pair(_, q0, k) => if q == q0 then Unsent else ThenStage(k)
    case Choose(_, q0, k) => if q == q0 then Unsent else ThenStage(k)
    case SendNow(_, q0, k) => if q == q0 then ToDriver else ThenStage(k)
    case WantW(_, q0, k) => if q == q0 then ToWorker else ThenStage(k)
    case InW(_, q0, k) => if q == q0 then ToWorker else ThenStage(k)
    case Publish(_, q0, _, k) => if q == q0 then ToWorker else ThenStage(k)
    case WorkOut(_, _) => ToWorker
    case Send(_, _) => ToWorker
    case Sent(_, _) => Sending
    case Resume(_, _) => Polled
    case Unpacking(_) => Sending
    case Fetching(_, _) => Fetched
    case Opening(_, _) => WithResult
    case Calling(_) => WithoutResult
    case _ => ThenStage(ThenOf(c))
  }

  function StageOf(s: State, q: Query, pl: QPlace): Stage {
    match pl
    case Queued => Unsent
    case Waiting => ToWorker
    case InTask => Sending
    case InEvent => Polled
    case HeldBy(t) => if t in s.pc then StageHeld(s.pc[t], q) else Unsent
    case Done => Over
  }

  /** Every query is as far as its place says; what is open was handed out; `q->res` is the last answer. */
  ghost predicate Staged(s: State) {
    (forall q, pl | QAt(s, q, pl) :: StageOk(s, q, StageOf(s, q, pl)))
    && (forall q | q !in s.known :: StageOk(s, q, Unsent))
    && (forall q | q in s.open :: q in s.handed)
    && (forall q :: q in s.gotRes <==> Answered(s, q))
  }

  // ---------- one step ----------

  /** What is on record of a query is the same in both states. */
  ghost predicate SameRecord(s: State, e: State, q: Query) {
    SentOn(e, q) == SentOn(s, q) && (q in e.item <==> q in s.item) && (q in s.item ==> e.item[q] == s.item[q])
    && (Answered(e, q) <==> Answered(s, q)) && (q in e.handed <==> q in s.handed)
  }

  lemma StageSame(s: State, e: State, q: Query, st: Stage)
    requires StageOk(s, q, st) && SameRecord(s, e, q) && e.async == s.async
    ensures StageOk(e, q, st)
  {
  }

  /** Only what is said of a query in the thread's own hands changes. */
  ghost predicate Touches(s: State, e: State, pc: Pc) {
    e.async == s.async && forall q | q !in HeldQ(pc) :: SameRecord(s, e, q)
  }

  lemma IdleTouches(s: State, c: Choice)
    ensures Touches(s, IdleEffect(s, c), Idle)
  {
  }

  lemma PoolTouchesEarly(s: State, t: Tid, pc: Pc)
    requires Early(pc)
    ensures Touches(s, PoolEffect(s, t, pc), pc)
  {
    hide ItemsOf; hide QueriesOf; hide Tail;
    if !pc.Pair? {
      EarlyTouchesNone(s, t, pc);
      hide PoolEffect;
    }
  }

  lemma EarlyTouchesNone(s: State, t: Tid, pc: Pc)
    requires Early(pc) && !pc.Pair?
    ensures var e := PoolEffect(s, t, pc);
            e.async == s.async && e.sent == s.sent && e.item == s.item && e.answered == s.answered
            && e.handed == s.handed
  {
    hide ItemsOf; hide QueriesOf; hide Tail; hide SentOn;
  }

  lemma PoolTouchesLate(s: State, t: Tid, pc: Pc)
    requires InPool(pc) && !Early(pc)
    ensures Touches(s, PoolEffect(s, t, pc), pc)
  {
    hide ItemsOf; hide QueriesOf; hide Tail;
    if !pc.SendNow? {
      PoolTouchesNone(s, t, pc);
    }
  }

  lemma PoolTouchesNone(s: State, t: Tid, pc: Pc)
    requires InPool(pc) && !Early(pc) && !pc.SendNow?
    ensures var e := PoolEffect(s, t, pc);
            e.async == s.async && e.sent == s.sent && e.item == s.item && e.answered == s.answered
            && e.handed == s.handed
  {
    hide ItemsOf; hide QueriesOf; hide Tail; hide SentOn;
  }

  lemma WorkTouchesInside(s: State, t: Tid, pc: Pc, c: Choice)
    requires AtWork(pc)
    ensures Touches(s, WorkEffect(s, t, pc, c), pc)
  {
    hide Results;
  }

  lemma WorkTouchesOutside(s: State, t: Tid, pc: Pc, c: Choice)
    requires !AtWork(pc)
    ensures Touches(s, WorkEffect(s, t, pc, c), pc)
  {
    hide Results;
  }

  lemma EffectTouches(s: State, t: Tid, pc: Pc, c: Choice)
    ensures Touches(s, Effect(s, t, pc, c), pc)
  {
    hide PoolEffect; hide WorkEffect; hide IdleEffect; hide Touches; hide Early; hide InPool; hide AtWork;
    if pc == Idle {
      IdleTouches(s, c);
    } else if InPool(pc) {
      if Early(pc) {
        PoolTouchesEarly(s, t, pc);
      } else {
        PoolTouchesLate(s, t, pc);
      }
    } else if AtWork(pc) {
      WorkTouchesInside(s, t, pc, c);
    } else {
      WorkTouchesOutside(s, t, pc, c);
    }
  }

  // ---------- the thread's own queries ----------

  /** What becomes of a query in the hands of the thread. */
  ghost predicate Advances(s: State, t: Tid, e: State, pc: Pc, pc': Pc, m: QMove, q: Query) {
    StageOk(s, q, StageHeld(pc, q)) ==>
      if m.QMoves? && m.q == q then StageOk(e, q, StageOf(e, q, m.to))
      else q in HeldQ(pc') ==> StageOk(e, q, StageHeld(pc', q))
  }

  lemma PairAdvances(s: State, t: Tid, pc: Pc, c: Choice, q: Query)
    requires pc.Pair? && PcOk(s, pc) && q in HeldQ(pc)
    ensures Advances(s, t, PoolEffect(s, t, pc), pc, PoolNext(s, pc), QueryMove(s, t, pc, c), q)
  {
    hide ItemsOf; hide QueriesOf; hide Tail;
  }

  lemma PoolAdvancesFirst(s: State, t: Tid, pc: Pc, c: Choice, q: Query)
    requires (pc.Submit? || pc.SubmitIn? || pc.TakeItem? || pc.PutQuery?) && PcOk(s, pc) && q in HeldQ(pc)
    ensures Advances(s, t, PoolEffect(s, t, pc), pc, PoolNext(s, pc), QueryMove(s, t, pc, c), q)
  {
    hide Tail;
  }

  lemma PoolAdvancesGive(s: State, t: Tid, pc: Pc, c: Choice, q: Query)
    requires (pc.Give? || pc.GiveIn? || pc.TakeQuery? || pc.PutItem?) && PcOk(s, pc) && q in HeldQ(pc)
    requires pc.TakeQuery? ==> q !in QueriesOf(s, pc.it.pool)
    ensures Advances(s, t, PoolEffect(s, t, pc), pc, PoolNext(s, pc), QueryMove(s, t, pc, c), q)
  {
    hide ItemsOf; hide Tail;
  }

  lemma PoolAdvancesEarly(s: State, t: Tid, pc: Pc, c: Choice, q: Query)
    requires Early(pc) && PcOk(s, pc) && q in HeldQ(pc)
    requires pc.TakeQuery? ==> q !in QueriesOf(s, pc.it.pool)
    ensures Advances(s, t, PoolEffect(s, t, pc), pc, PoolNext(s, pc), QueryMove(s, t, pc, c), q)
  {
    hide Advances; hide PoolEffect; hide PoolNext; hide QueryMove; hide HeldQ; hide PcOk;
    if pc.Pair? {
      PairAdvances(s, t, pc, c, q);
    } else if pc.Give? || pc.GiveIn? || pc.TakeQuery? || pc.PutItem? {
      PoolAdvancesGive(s, t, pc, c, q);
    } else {
      PoolAdvancesFirst(s, t, pc, c, q);
    }
  }

  lemma PoolAdvancesLast(s: State, t: Tid, pc: Pc, c: Choice, q: Query)
    requires (pc.OutW? || pc.Post? || pc.Release?) && PcOk(s, pc) && q in HeldQ(pc)
    ensures Advances(s, t, PoolEffect(s, t, pc), pc, PoolNext(s, pc), QueryMove(s, t, pc, c), q)
  {
    hide ItemsOf; hide QueriesOf; hide Tail;
  }

  lemma SendAdvances(s: State, t: Tid, pc: Pc, c: Choice, q: Query)
    requires (pc.Choose? || pc.SendNow?) && PcOk(s, pc) && q in HeldQ(pc)
    ensures Advances(s, t, PoolEffect(s, t, pc), pc, PoolNext(s, pc), QueryMove(s, t, pc, c), q)
  {
    hide ItemsOf; hide QueriesOf; hide Tail;
  }

  lemma PoolAdvancesMiddle(s: State, t: Tid, pc: Pc, c: Choice, q: Query)
    requires ( pc.WantW? || pc.InW? || pc.Publish?) && PcOk(s, pc) && q in HeldQ(pc)
    ensures Advances(s, t, PoolEffect(s, t, pc), pc, PoolNext(s, pc), QueryMove(s, t, pc, c), q)
  {
    hide ItemsOf; hide QueriesOf; hide Tail;
  }

  lemma PoolAdvancesLate(s: State, t: Tid, pc: Pc, c: Choice, q: Query)
    requires InPool(pc) && !Early(pc) && PcOk(s, pc) && q in HeldQ(pc)
    ensures Advances(s, t, PoolEffect(s, t, pc), pc, PoolNext(s, pc), QueryMove(s, t, pc, c), q)
  {
    hide Advances; hide PoolEffect; hide PoolNext; hide QueryMove; hide HeldQ; hide PcOk;
    if pc.OutW? || pc.Post? || pc.Release? {
      PoolAdvancesLast(s, t, pc, c, q);
    } else if pc.Choose? || pc.SendNow? {
      SendAdvances(s, t, pc, c, q);
    } else {
      PoolAdvancesMiddle(s, t, pc, c, q);
    }
  }

  lemma WorkAdvancesInside(s: State, t: Tid, pc: Pc, c: Choice, q: Query)
    requires AtWork(pc) && PcOk(s, pc) && q in HeldQ(pc)
    ensures Advances(s, t, WorkEffect(s, t, pc, c), pc, WorkNext(s, pc, c), QueryMove(s, t, pc, c), q)
  {
    hide Results;
  }

  lemma WorkAdvancesOutside(s: State, t: Tid, pc: Pc, c: Choice, q: Query)
    requires !AtWork(pc) && !InPool(pc) && pc != Idle && PcOk(s, pc) && q in HeldQ(pc)
    requires q in s.gotRes <==> Answered(s, q)
    ensures Advances(s, t, WorkEffect(s, t, pc, c), pc, WorkNext(s, pc, c), QueryMove(s, t, pc, c), q)
  {
    hide Results;
  }

  // ---------- the queries it takes up ----------

  ghost predicate TakesUp(s: State, t: Tid, e: State, pc': Pc, m: QMove) {
    match m
    case QNew(q) => StageOk(s, q, Unsent) ==> StageOk(e, q, StageHeld(pc', q))
    case QMoves(q, from, to) =>
      to == HeldBy(t) && StageOk(s, q, StageOf(s, q, from)) ==> StageOk(e, q, StageHeld(pc', q))
    case QStay => true
  }

  lemma IdleTakesUp(s: State, t: Tid, c: Choice)
    ensures TakesUp(s, t, IdleEffect(s, c), IdleNext(s, c), QueryMove(s, t, Idle, c))
  {
  }

  lemma PoolTakesUpEarly(s: State, t: Tid, pc: Pc, c: Choice)
    requires Early(pc)
    ensures TakesUp(s, t, PoolEffect(s, t, pc), PoolNext(s, pc), QueryMove(s, t, pc, c))
  {
    hide ItemsOf; hide QueriesOf; hide Tail;
  }

  lemma PoolTakesUpLate(s: State, t: Tid, pc: Pc, c: Choice)
    requires InPool(pc) && !Early(pc)
    ensures TakesUp(s, t, PoolEffect(s, t, pc), PoolNext(s, pc), QueryMove(s, t, pc, c))
  {
    hide ItemsOf; hide QueriesOf; hide Tail; hide StageOk;
  }

  lemma WorkTakesUp(s: State, t: Tid, pc: Pc, c: Choice)
    requires !InPool(pc) && pc != Idle && (pc.WorkDrop? ==> pc.q in s.item)
    ensures TakesUp(s, t, WorkEffect(s, t, pc, c), WorkNext(s, pc, c), QueryMove(s, t, pc, c))
  {
    hide Results;
  }

  // ---------- the whole step ----------

  /** What a thread does to a query it holds, and to one it takes up. */
  lemma OwnQueries(s: State, t: Tid, c: Choice, v: map<Query, QPlace>, q: Query)
    requires Enabled(s, t, c) && t in s.pc && QueriesAt(s, v) && PoolLists(s) && PcOk(s, s.pc[t])
             && (q in s.gotRes <==> Answered(s, q))
    ensures var pc, pc', e := s.pc[t], NextPc(s, s.pc[t], c), Effect(s, t, s.pc[t], c);
            (q in HeldQ(pc) ==> Advances(s, t, e, pc, pc', QueryMove(s, t, pc, c), q))
            && TakesUp(s, t, e, pc', QueryMove(s, t, pc, c))
  {
    hide Advances; hide TakesUp; hide PoolEffect; hide WorkEffect; hide IdleEffect; hide PoolNext; hide WorkNext;
    hide IdleNext; hide QueryMove; hide InPool; hide Early; hide AtWork; hide PcOk; hide HeldQ; hide QueriesAt;
    hide PoolLists; hide QueriesOf; hide Answered;
    var pc := s.pc[t];
    if pc == Idle {
      IdleTakesUp(s, t, c);
      NothingHeld();
    } else if InPool(pc) {
      if pc.TakeQuery? {
        OtherQueries(s, t, v);
        HeldBack(pc);
      }
      if Early(pc) {
        PoolTakesUpEarly(s, t, pc, c);
        if q in HeldQ(pc) {
          PoolAdvancesEarly(s, t, pc, c, q);
        }
      } else {
        PoolTakesUpLate(s, t, pc, c);
        if q in HeldQ(pc) {
          PoolAdvancesLate(s, t, pc, c, q);
        }
      }
    } else {
      WorkTakesUp(s, t, pc, c);
      if q in HeldQ(pc) {
        if AtWork(pc) {
          WorkAdvancesInside(s, t, pc, c, q);
        } else {
          WorkAdvancesOutside(s, t, pc, c, q);
        }
      }
    }
  }

  lemma NothingHeld()
    ensures HeldQ(Idle) == {}
  {
  }

  lemma HeldBack(pc: Pc)
    requires pc.TakeQuery?
    ensures HeldQ(pc) == QueryOf(pc.k)
  {
  }

  /** What is open was handed out, and `q->res` is the last answer of the driver. */
  ghost predicate Booked(s: State) {
    (forall q | q in s.open :: q in s.handed) && forall q :: q in s.gotRes <==> Answered(s, q)
  }

  lemma IdleBooks(s: State, c: Choice)
    requires Booked(s)
    ensures Booked(IdleEffect(s, c))
  {
  }

  lemma BooksSame(s: State, e: State)
    requires Booked(s) && e.open == s.open && e.handed == s.handed && e.gotRes == s.gotRes && e.answered == s.answered
    ensures Booked(e)
  {
  }

  lemma PoolBooksEarly(s: State, t: Tid, pc: Pc)
    requires Early(pc)
    ensures var e := PoolEffect(s, t, pc);
            e.open == s.open && e.handed == s.handed && e.gotRes == s.gotRes && e.answered == s.answered
  {
    hide ItemsOf; hide QueriesOf; hide Tail;
  }

  lemma PoolBooksLate(s: State, t: Tid, pc: Pc)
    requires !Early(pc)
    ensures var e := PoolEffect(s, t, pc);
            e.open == s.open && e.handed == s.handed && e.gotRes == s.gotRes && e.answered == s.answered
  {
    hide ItemsOf; hide QueriesOf; hide Tail; hide SentOn;
  }

  lemma PoolBooks(s: State, t: Tid, pc: Pc)
    requires Booked(s)
    ensures Booked(PoolEffect(s, t, pc))
  {
    hide PoolEffect; hide Early; hide Booked;
    if Early(pc) {
      PoolBooksEarly(s, t, pc);
    } else {
      PoolBooksLate(s, t, pc);
    }
    BooksSame(s, PoolEffect(s, t, pc));
  }

  lemma WorkBooks(s: State, t: Tid, pc: Pc, c: Choice)
    requires Booked(s)
    ensures Booked(WorkEffect(s, t, pc, c))
  {
    hide SentOn;
  }

  lemma BookedKept(s: State, t: Tid, c: Choice)
    requires Enabled(s, t, c) && Booked(s)
    ensures Booked(Do(s, t, c))
  {
    hide IdleEffect; hide PoolEffect; hide WorkEffect; hide InPool;
    var pc := s.pc[t];
    IdleBooks(s, c);
    PoolBooks(s, t, pc);
    WorkBooks(s, t, pc, c);
  }

  lemma PcApart(e: State, s': State, q: Query, st: Stage)
    requires StageOk(e, q, st) && s' == e.(pc := s'.pc)
    ensures StageOk(s', q, st)
  {
  }

  /** The stage of a query that the step does not move. */
  lemma StageStays(s: State, t: Tid, c: Choice, v: map<Query, QPlace>, q: Query)
    requires Enabled(s, t, c) && t in s.pc && Staged(s) && QueriesAt(s, v) && PcOk(s, s.pc[t]) && PoolLists(s)
    requires q in v && QHeldFollows(t, s.pc[t], NextPc(s, s.pc[t], c), QueryMove(s, t, s.pc[t], c))
    requires var m := QueryMove(s, t, s.pc[t], c); m.QStay? || m.q != q
    ensures StageOk(Do(s, t, c), q, StageOf(Do(s, t, c), q, v[q]))
  {
    hide Effect; hide NextPc; hide Enabled; hide QueryMove; hide StageOk; hide SameRecord; hide HeldQ; hide PoolLists;
    hide StageHeld; hide Answered; hide QAt; hide PcOk;
    var s', pc, e := Do(s, t, c), s.pc[t], Effect(s, t, s.pc[t], c);
    EffectTouches(s, t, pc, c);
    assert QAt(s, q, v[q]);
    HeldIs(s, q, t);
    if v[q] == HeldBy(t) {
      OwnQueries(s, t, c, v, q);
      PcApart(e, s', q, StageHeld(s'.pc[t], q));
    } else {
      HeldHere(s, q, v, t);
      StageSame(s, e, q, StageOf(s, q, v[q]));
      PcApart(e, s', q, StageOf(s, q, v[q]));
      StageSeen(s, q, v[q]);
    }
  }

  lemma HeldIs(s: State, q: Query, t: Tid)
    ensures QAt(s, q, HeldBy(t)) <==> t in s.pc && q in HeldQ(s.pc[t])
  {
  }

  lemma HeldHere(s: State, q: Query, v: map<Query, QPlace>, t: Tid)
    requires QueriesAt(s, v) && t in s.pc && !(q in v && v[q] == HeldBy(t))
    ensures q !in HeldQ(s.pc[t])
  {
    assert !QAt(s, q, HeldBy(t));
  }

  lemma StageSeen(s: State, q: Query, pl: QPlace)
    requires QAt(s, q, pl)
    ensures pl.HeldBy? ==> pl.t in s.pc
  {
  }

  /** And of the one that it does. */
  lemma StageMoves(s: State, t: Tid, c: Choice, v: map<Query, QPlace>, q: Query)
    requires Enabled(s, t, c) && t in s.pc && Staged(s) && QueriesAt(s, v) && PcOk(s, s.pc[t]) && PoolLists(s)
    requires QHeldFollows(t, s.pc[t], NextPc(s, s.pc[t], c), QueryMove(s, t, s.pc[t], c))
    requires var m := QueryMove(s, t, s.pc[t], c); !m.QStay? && m.q == q && (m.QMoves? ==> q in v && v[q] == m.from)
    requires QueryMove(s, t, s.pc[t], c).QNew? ==> q !in s.known
    ensures var m := QueryMove(s, t, s.pc[t], c);
            StageOk(Do(s, t, c), q, StageOf(Do(s, t, c), q, if m.QNew? then HeldBy(t) else m.to))
  {
    hide Effect; hide NextPc; hide Enabled; hide QueryMove; hide StageOk; hide SameRecord; hide HeldQ; hide PoolLists;
    hide StageHeld; hide Answered; hide QAt; hide PcOk;
    var s', pc, e := Do(s, t, c), s.pc[t], Effect(s, t, s.pc[t], c);
    var m := QueryMove(s, t, pc, c);
    OwnQueries(s, t, c, v, q);
    if m.QMoves? {
      assert QAt(s, q, v[q]);
    }
    PcApart(e, s', q, StageOf(s', q, if m.QNew? then HeldBy(t) else m.to));
  }

  /** Every step keeps every query as far as its place says. */
  lemma StagedKept(s: State, t: Tid, c: Choice, v: map<Query, QPlace>)
    requires Enabled(s, t, c) && t in s.pc && Staged(s) && QueriesAt(s, v) && Local(s) && PoolLists(s)
    ensures Staged(Do(s, t, c))
  {
    hide Effect; hide NextPc; hide Enabled; hide QueryMove; hide StageOk; hide SameRecord; hide HeldQ; hide PoolLists;
    hide Local; hide StageHeld; hide Answered; hide QAt; hide PcOk; hide QHeldFollows;
    var s', pc, e := Do(s, t, c), s.pc[t], Effect(s, t, s.pc[t], c);
    var m := QueryMove(s, t, pc, c);
    var v' := QueriesKept(s, t, c, v);
    LocalAt(s, t);
    BookedKept(s, t, c);
    EffectTouches(s, t, pc, c);
    forall q, pl | QAt(s', q, pl) ensures StageOk(s', q, StageOf(s', q, pl)) {
      assert q in v' && v'[q] == pl;
      if !m.QStay? && m.q == q {
        NewIsNew(s, t, c);
        StageMoves(s, t, c, v, q);
      } else {
        StageStays(s, t, c, v, q);
      }
    }
    forall q | q !in s'.known ensures StageOk(s', q, Unsent) {
      HeldHere(s, q, v, t);
      StageSame(s, e, q, Unsent);
      PcApart(e, s', q, Unsent);
    }
  }

  lemma NewIsNew(s: State, t: Tid, c: Choice)
    requires Enabled(s, t, c)
    ensures var m := QueryMove(s, t, s.pc[t], c); m.QNew? ==> m.q !in s.known
  {
  }

  // ---------- runs ----------

  lemma {:induction false} RunStaged(states: seq<State>)
    requires Run(states)
    ensures Staged(states[|states| - 1])
  {
    hide Sound; hide ItemsAt; hide QueriesAt; hide Enabled; hide Do; hide Staged; hide Init;
    var n := |states| - 1;
    if n == 0 {
      InitStaged(states[0]);
    } else {
      var before := states[..n];
      assert before[0] == states[0];
      forall i | 0 <= i < |before| - 1 ensures Next(before[i], before[i + 1]) {
        assert Next(states[i], states[i + 1]);
      }
      RunStaged(before);
      var w, v := RunSound(before);
      assert Next(states[n - 1], states[n - 1 + 1]);
      var t, c :| Enabled(states[n - 1], t, c) && states[n] == Do(states[n - 1], t, c);
      SoundParts(states[n - 1]);
      InPc(states[n - 1], t, c);
      StagedKept(states[n - 1], t, c, v);
    }
  }

  lemma SoundParts(s: State)
    requires Sound(s)
    ensures Local(s) && PoolLists(s) && Paired1(s)
  {
  }

  lemma InitStaged(s: State)
    requires Init(s)
    ensures Staged(s)
  {
    InitQueries(s);
  }

  /** In every state of every run: no query is ever sent twice, and one whose connection is polled, whose task is
      pending or whose callback has run was sent once, on a connection of its own pool; only connections that can be
      polled are polled, and only for queries without a `ps_idx`, and the workers get the others; a callback has been
      given a result exactly if the driver's last answer to a select was one. */
  lemma RunAnswered(states: seq<State>, q: Query)
    requires Run(states)
    ensures var s := states[|states| - 1];
            |SentOn(s, q)| <= 1 && (forall it | it in SentOn(s, q) :: it.pool == q.pool)
            && (q in s.tasks || q in s.events || q in s.called ==> SentOnce(s, q) && s.item[q].pool == q.pool)
            && (q in s.events ==> q.pool in s.async && !q.ps)
            && (q in s.waiting ==> SentOn(s, q) == [] && (q.pool !in s.async || q.ps))
    ensures var s := states[|states| - 1];
            (q in s.open ==> q in s.handed)
            && (q in s.handed <==> q in s.called && q.fetch && q in s.answered && s.answered[q])
  {
    hide Init; hide Next; hide Sound; hide StageHeld; hide StageOk; hide SentOnce; hide Answered;
    var s := states[|states| - 1];
    RunStaged(states);
    var w, v := RunSound(states);
    SoundParts(s);
    ghost var pl := if q in s.known then v[q] else Queued;
    Elsewhere(s, q, v);
    if q in s.known {
      NotOver(s, q, pl);
      assert QAt(s, q, pl);
    }
    StageSays(s, q, if q in s.known then StageOf(s, q, pl) else Unsent);
  }

  lemma NotOver(s: State, q: Query, pl: QPlace)
    ensures StageOf(s, q, pl) == Over <==> pl == Done
  {
  }

  lemma Elsewhere(s: State, q: Query, v: map<Query, QPlace>)
    requires QueriesAt(s, v)
    ensures q in s.tasks <==> q in s.known && v[q] == InTask
    ensures q in s.events <==> q in s.known && v[q] == InEvent
    ensures q in s.waiting <==> q in s.known && v[q] == Waiting
    ensures q in s.called <==> q in s.known && v[q] == Done
  {
    assert q in s.tasks <==> QAt(s, q, InTask);
    assert q in s.events <==> QAt(s, q, InEvent);
    assert q in s.waiting <==> QAt(s, q, Waiting);
    assert q in s.called <==> QAt(s, q, Done);
  }

  lemma StageSays(s: State, q: Query, st: Stage)
    requires StageOk(s, q, st) && Paired1(s)
    ensures |SentOn(s, q)| <= 1 && forall it | it in SentOn(s, q) :: it.pool == q.pool
    ensures st in {Sending, Polled, Over} ==> SentOnce(s, q) && s.item[q].pool == q.pool
    ensures st == Polled ==> q.pool in s.async && !q.ps
    ensures st == ToWorker ==> SentOn(s, q) == [] && (q.pool !in s.async || q.ps)
    ensures q in s.handed <==> st == Over && q.fetch && q in s.answered && s.answered[q]
  {
  }
}

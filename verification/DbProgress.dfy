/** No deadlock, and nothing is left behind: while there is anything left to do some thread can step, and when there
    is not, every query has been answered unless all connections of its pool are behind results that were not
    finalized. */
module DbProgress {
  import opened DbPool
  import opened DbPlaces
  import opened DbSafety

  /** Nothing is left to do but for the environment. */
  ghost predicate Quiet(s: State) {
    (forall t | t in s.pc :: s.pc[t] == Idle) && s.sem == 0 && s.tasks == {} && s.events == {}
  }

  /** A step that neither submits a query nor finalizes a result. */
  ghost predicate CanStep(s: State) {
    exists t, c :: Enabled(s, t, c) && !c.NewQuery? && !c.Finalize?
  }

  lemma Steps(s: State, t: Tid, c: Choice)
    requires Enabled(s, t, c) && !c.NewQuery? && !c.Finalize?
    ensures CanStep(s)
  {
  }

  /** The holder of `w_lock` can go on. */
  lemma HolderOfW(s: State, t: Tid)
    requires t in s.pc && HoldsW(s.pc[t]) && PcOk(s, s.pc[t]) && Balanced(s) && Paired1(s)
    ensures CanStep(s)
  {
    hide Balanced; hide CanStep;
    if s.pc[t].WorkIn? {
      NeverEmpty(s, t);
    } else if s.pc[t].WorkDrop? {
      assert s.waiting[0] == s.pc[t].q;
    }
    Steps(s, t, Go);
  }

  /** The holder of a pool lock can go on unless it waits for `w_lock`. */
  lemma HolderOfPool(s: State, t: Tid)
    requires t in s.pc && PoolOf(s.pc[t]).Some? && PcOk(s, s.pc[t]) && true !in s.wLock
    ensures CanStep(s)
  {
    hide CanStep;
    Steps(s, t, Go);
  }

  /** A thread that is neither idle nor waits for a held lock can go on. */
  lemma Busy(s: State, t: Tid)
    requires t in s.pc && s.pc[t] != Idle && PoolOf(s.pc[t]) == None && !HoldsW(s.pc[t]) && PcOk(s, s.pc[t])
    requires true !in s.wLock && s.poolLock == map[]
    ensures CanStep(s)
  {
    hide CanStep;
    Steps(s, t, if s.pc[t].Send? || s.pc[t].Resume? then HasResult else Go);
  }

  /** An idle thread finds work. */
  lemma Resting(s: State, worker: Tid, other: Tid)
    requires worker in s.workers && worker in s.pc && other in s.pc && other !in s.workers && Paired1(s)
    requires (forall t | t in s.pc :: s.pc[t] == Idle) && !Quiet(s)
    ensures CanStep(s)
  {
    hide CanStep;
    if s.sem > 0 {
      Steps(s, worker, Go);
    } else if s.tasks != {} {
      var q :| q in s.tasks;
      Steps(s, other, RunTask(q));
    } else {
      var q :| q in s.events;
      Steps(s, other, RunEvent(q));
    }
  }

  lemma NoDeadlockHere(s: State, worker: Tid, other: Tid)
    requires Sound(s) && worker in s.workers && other in s.pc && other !in s.workers && !Quiet(s)
    ensures CanStep(s)
  {
    hide PoolOf; hide HoldsW; hide PcOk; hide CanStep; hide Balanced; hide Paired1; hide PoolLists; hide NotBoth;
    hide Quiet;
    if true in s.wLock {
      HolderOfW(s, s.wLock[true]);
    } else if p :| p in s.poolLock {
      HolderOfPool(s, s.poolLock[p]);
    } else if t :| t in s.pc && s.pc[t] != Idle {
      assert s.poolLock == map[];
      Busy(s, t);
    } else {
      Resting(s, worker, other);
    }
  }

  /** In every state of every run in which there is a worker and another thread, some thread can step unless nothing
      is left to do. */
  lemma NoDeadlock(states: seq<State>, worker: Tid, other: Tid)
    requires Run(states)
    requires var s := states[|states| - 1]; worker in s.workers && other in s.pc && other !in s.workers && !Quiet(s)
    ensures CanStep(states[|states| - 1])
  {
    hide CanStep; hide Sound; hide Quiet; hide Init; hide Next;
    var w, v := RunSound(states);
    NoDeadlockHere(states[|states| - 1], worker, other);
  }

  /** When nothing is left to do, a query that has not been answered waits in its pool, and every connection of that
      pool is behind a result that was handed out and not finalized. */
  lemma NothingLost(states: seq<State>, q: Query)
    requires Run(states)
    requires var s := states[|states| - 1]; Quiet(s) && q in s.known
    ensures var s := states[|states| - 1];
            s.called[q] == 1
            || (q in QueriesOf(s, q.pool) && forall it | it in s.conns && it.pool == q.pool :: exists r ::
               r in s.open && s.open[r] == it)
  {
    hide Init; hide Next; hide PoolLocks; hide WLock; hide Local; hide Paired1; hide PoolLists;
    var s := states[|states| - 1];
    var w, v := RunSound(states);
    assert PastWaiters(s) == {} && Posters(s) == {};
    assert QAt(s, q, v[q]);
    if v[q] == Queued {
      forall it | it in s.conns && it.pool == q.pool ensures exists r :: r in s.open && s.open[r] == it {
        assert AtPlace(s, it, w[it]);
      }
    }
  }
}

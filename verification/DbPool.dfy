/** Connections, queries and threads of the database core, as a step system: every step is one access to shared
    memory. */
module DbPool {

  type Tid = nat
  type Pool = nat

  /** `db_item_t`: a connection of one pool. */
  datatype Item = Item(id: nat, pool: Pool)

  /** `db_query_t`, as far as it never changes: its pool, whether its type is OP_QUERY or OP_RAW, and whether it has a
      `ps_idx`. */
  datatype Query = Query(id: nat, pool: Pool, fetch: bool, ps: bool)

  /** What a thread does after `db_submit_item` or `db_submit_query` returns. */
  datatype Then = Stop | Unpack(q: Query) | Callback(q: Query)

  /** Where a thread is; the comments name the function. */
  datatype Pc =
    | Idle
      // db_submit_query
    | Submit(q: Query) | SubmitIn(q: Query) | TakeItem(q: Query) | PutQuery(q: Query)
      // db_submit_item
    | Give(it: Item, k: Then) | GiveIn(it: Item, k: Then) | TakeQuery(it: Item, k: Then) | PutItem(it: Item, k: Then)
      // db_submit_active_query
    | Pair(it: Item, q: Query, k: Then) | Choose(it: Item, q: Query, k: Then) | SendNow(it: Item, q: Query, k: Then)
    | WantW(it: Item, q: Query, k: Then) | InW(it: Item, q: Query, k: Then)
      | Publish(it: Item, q: Query, next: seq<Query>, k: Then)
    | OutW(p: Pool, k: Then) | Post(p: Pool, k: Then) | Release(p: Pool, k: Then)
      // work
    | WorkLock | WorkIn | WorkDrop(q: Query, next: seq<Query>) | WorkOut(it: Item, q: Query)
      | Send(it: Item, q: Query) | Sent(it: Item, q: Query)
    | Check(it: Item, q: Query)
      // continue_query and unpack_result
    | Resume(it: Item, q: Query) | Unpacking(q: Query) | Fetching(it: Item, q: Query)
      // about to run the callback, with and without a result to hand out
    | Opening(it: Item, q: Query) | Calling(q: Query)

  datatype State = State(
    workers: set<Tid>,            // threads that run work()
    async: set<Pool>,             // pools whose module has a socket function
    conns: set<Item>,
    items: map<Pool, seq<Item>>,  // pool->items, first to last
    queries: map<Pool, seq<Query>>,
    poolLock: map<Pool, Tid>,     // absent: free
    waiting: seq<Query>,
    wLock: map<bool, Tid>,        // the entry for true, if any, is the holder of w_lock
    sem: nat,                     // w_sem
    item: map<Query, Item>,       // q->item
    gotRes: set<Query>,           // queries whose q->res is not NULL
    tasks: set<Query>,            // unpack_result tasks in the dispatcher
    events: set<Query>,           // continue_query tasks in the reactor
    open: map<Query, Item>,       // results handed out and not yet finalized, with their res->it
    known: set<Query>,            // queries submitted so far
    called: multiset<Query>,      // callbacks run so far
    sent: map<Query, seq<Item>>,  // the connections a query has been sent on, in order
    answered: map<Query, bool>,   // whether the driver has last answered with a result
    handed: set<Query>,           // queries whose callback was given a result
    pc: map<Tid, Pc>
  )

  function ItemsOf(s: State, p: Pool): seq<Item> {
    if p in s.items then s.items[p] else []
  }

  function QueriesOf(s: State, p: Pool): seq<Query> {
    if p in s.queries then s.queries[p] else []
  }

  function SentOn(s: State, q: Query): seq<Item> {
    if q in s.sent then s.sent[q] else []
  }

  /** What the environment decides in a step. */
  datatype Choice = Go | NewQuery(q: Query) | Finalize(q: Query) | RunTask(q: Query) | RunEvent(q: Query) | More
    | HasResult | NoResult

  /** What follows a call that returns. */
  function After(k: Then): Pc {
    match k
    case Stop => Idle
    case Unpack(q) => Unpacking(q)
    case Callback(q) => Calling(q)
  }

  /** `q->res = res`. */
  function Results(got: set<Query>, q: Query, c: Choice): set<Query> {
    if c.HasResult? then got + {q} else got - {q}
  }

  /** Whether thread `t` can take a step with this choice. */
  predicate Enabled(s: State, t: Tid, c: Choice) {
    t in s.pc
    && match s.pc[t]
       case Idle =>
         (match c
          case Go => t in s.workers && s.sem > 0
          case NewQuery(q) => t !in s.workers && q !in s.known
          case Finalize(q) => t !in s.workers && q in s.open
          case RunTask(q) => t !in s.workers && q in s.tasks
          case RunEvent(q) => t !in s.workers && q in s.events && q in s.item
          case _ => false)
       case Submit(q) => c.Go? && q.pool !in s.poolLock
       case Give(it, _) => c.Go? && it.pool !in s.poolLock
       case TakeItem(q) => c.Go? && ItemsOf(s, q.pool) != []
       case TakeQuery(it, _) => c.Go? && QueriesOf(s, it.pool) != []
       case WantW(_, _, _) => c.Go? && true !in s.wLock
       case WorkLock => c.Go? && true !in s.wLock
       case WorkIn => c.Go? && s.waiting != []
       case WorkDrop(q, _) => c.Go? && q in s.item
       case Send(_, _) => c.HasResult? || c.NoResult?
       case Resume(_, _) => c.More? || c.HasResult? || c.NoResult?
       case Unpacking(q) => c.Go? && q in s.item
       case _ => c.Go?
  }

  /** `q->ps_idx && (cap | DB_CAP_SYNC_PREP_STMT)`: the second half is never zero. */
  predicate GoesBlocking(s: State, q: Query) {
    q.pool !in s.async || q.ps
  }

  /** Where an idle thread goes. */
  function IdleNext(s: State, c: Choice): Pc {
    match c
    case Go => WorkLock
    case NewQuery(q) => Submit(q)
    case Finalize(q) => if q in s.open then Give(s.open[q], Stop) else Idle
    case RunTask(q) => Unpacking(q)
    case RunEvent(q) => if q in s.item then Resume(s.item[q], q) else Idle
    case _ => Idle
  }

  function IdleEffect(s: State, c: Choice): State {
    match c
    case Go => s.(sem := if s.sem > 0 then s.sem - 1 else 0)
    case NewQuery(q) => s.(known := s.known + {q})
    case Finalize(q) => s.(open := s.open - {q})
    case RunTask(q) => s.(tasks := s.tasks - {q})
    case RunEvent(q) => s.(events := s.events - {q})
    case _ => s
  }

  /** The control flow of `db_submit_query`, `db_submit_item` and `db_submit_active_query`. */
  function PoolNext(s: State, pc: Pc): Pc {
    match pc
    case Submit(q) => SubmitIn(q)
    case SubmitIn(q) => if ItemsOf(s, q.pool) != [] then TakeItem(q) else PutQuery(q)
    case TakeItem(q) => if ItemsOf(s, q.pool) != [] then Pair(ItemsOf(s, q.pool)[0], q, Stop) else pc
    case PutQuery(q) => Release(q.pool, Stop)
    case Give(it, k) => GiveIn(it, k)
    case GiveIn(it, k) => if QueriesOf(s, it.pool) != [] then TakeQuery(it, k) else PutItem(it, k)
    case TakeQuery(it, k) => if QueriesOf(s, it.pool) != [] then Pair(it, QueriesOf(s, it.pool)[0], k) else pc
    case PutItem(it, k) => Release(it.pool, k)
    case Pair(it, q, k) => Choose(it, q, k)
    case Choose(it, q, k) => if GoesBlocking(s, q) then WantW(it, q, k) else SendNow(it, q, k)
    case SendNow(it, q, k) => Release(it.pool, k)
    case WantW(it, q, k) => InW(it, q, k)
    case InW(it, q, k) => Publish(it, q, s.waiting, k)
    case Publish(it, q, next, k) => OutW(it.pool, k)
    case OutW(p, k) => Post(p, k)
    case Post(p, k) => Release(p, k)
    case Release(p, k) => After(k)
    case _ => pc
  }

  /** And what they do to shared memory. */
  function PoolEffect(s: State, t: Tid, pc: Pc): State {
    match pc
    case Submit(q) => s.(poolLock := s.poolLock[q.pool := t])
    case TakeItem(q) => s.(items := s.items[q.pool := Tail(ItemsOf(s, q.pool))])
    case PutQuery(q) => s.(queries := s.queries[q.pool := [q] + QueriesOf(s, q.pool)])
    case Give(it, k) => s.(poolLock := s.poolLock[it.pool := t])
    case TakeQuery(it, k) => s.(queries := s.queries[it.pool := Tail(QueriesOf(s, it.pool))])
    case PutItem(it, k) => s.(items := s.items[it.pool := [it] + ItemsOf(s, it.pool)])
    case Pair(it, q, k) => s.(item := s.item[q := it])
    case SendNow(it, q, k) => s.(events := s.events + {q}, sent := s.sent[q := SentOn(s, q) + [it]])
    case WantW(it, q, k) => s.(wLock := s.wLock[true := t])
    case Publish(it, q, next, k) => s.(waiting := [q] + next)
    case OutW(p, k) => s.(wLock := s.wLock - {true})
    case Post(p, k) => s.(sem := s.sem + 1)
    case Release(p, k) => s.(poolLock := s.poolLock - {p})
    case _ => s
  }

  function Tail<T>(l: seq<T>): seq<T> {
    if l == [] then [] else l[1..]
  }

  /** The control flow of `work`, `continue_query` and `unpack_result`. */
  function WorkNext(s: State, pc: Pc, c: Choice): Pc {
    match pc
    case WorkLock => WorkIn
    case WorkIn => if s.waiting != [] then WorkDrop(s.waiting[0], s.waiting[1..]) else pc
    case WorkDrop(q, next) => if q in s.item then WorkOut(s.item[q], q) else pc
    case WorkOut(it, q) => Send(it, q)
    case Send(it, q) => Sent(it, q)
    case Sent(it, q) => Check(it, q)
    case Check(it, q) => if q.fetch then Idle else Give(it, Stop)
    case Resume(it, q) => if c.More? then Idle else if q.fetch then Unpacking(q) else Give(it, Unpack(q))
    case Unpacking(q) => if q.fetch && q in s.item then Fetching(s.item[q], q) else Calling(q)
    case Fetching(it, q) => if q in s.gotRes then Opening(it, q) else Give(it, Callback(q))
    case Opening(it, q) => Idle
    case Calling(q) => Idle
    case _ => pc
  }

  function WorkEffect(s: State, t: Tid, pc: Pc, c: Choice): State {
    match pc
    case WorkLock => s.(wLock := s.wLock[true := t])
    case WorkDrop(q, next) => s.(waiting := next)
    case WorkOut(it, q) => s.(wLock := s.wLock - {true})
    case Send(it, q) =>
      s.(gotRes := Results(s.gotRes, q, c), answered := s.answered[q := c.HasResult?],
         sent := s.sent[q := SentOn(s, q) + [it]])
    case Sent(it, q) => s.(tasks := s.tasks + {q})
    case Resume(it, q) =>
      if c.More? then s.(events := s.events + {q})
      else s.(gotRes := Results(s.gotRes, q, c), answered := s.answered[q := c.HasResult?])
    case Opening(it, q) =>
      s.(called := s.called + multiset{q}, open := s.open[q := it], handed := s.handed + {q})
    case Calling(q) => s.(called := s.called + multiset{q})
    case _ => s
  }

  predicate InPool(c: Pc) {
    c.Submit? || c.SubmitIn? || c.TakeItem? || c.PutQuery? || c.Give? || c.GiveIn? || c.TakeQuery? || c.PutItem?
    || c.Pair? || c.Choose? || c.SendNow? || c.WantW? || c.InW? || c.Publish? || c.OutW? || c.Post? || c.Release?
  }

  /** Up to the pairing of connection and query, in those functions. */
  predicate Early(c: Pc) {
    c.Submit? || c.SubmitIn? || c.TakeItem? || c.PutQuery? || c.Give? || c.GiveIn? || c.TakeQuery? || c.PutItem?
    || c.Pair?
  }

  function NextPc(s: State, pc: Pc, c: Choice): Pc {
    if pc == Idle then IdleNext(s, c) else if InPool(pc) then PoolNext(s, pc) else WorkNext(s, pc, c)
  }

  function Effect(s: State, t: Tid, pc: Pc, c: Choice): State {
    if pc == Idle then IdleEffect(s, c) else if InPool(pc) then PoolEffect(s, t, pc) else WorkEffect(s, t, pc, c)
  }

  /** One step of thread `t`: one access to shared memory, and on to the next program point. */
  function Do(s: State, t: Tid, c: Choice): State
    requires Enabled(s, t, c)
  {
    Effect(s, t, s.pc[t], c).(pc := s.pc[t := NextPc(s, s.pc[t], c)])
  }

  /** All connections free, nothing submitted, every thread (workers among them) idle: the pools as `db_init` fills
      them. */
  ghost predicate Init(s: State) {
    s.poolLock == map[] && s.wLock == map[] && s.waiting == [] && s.sem == 0 && s.item == map[] && s.gotRes == {}
    && s.tasks == {}
    && s.events == {} && s.open == map[] && s.known == {} && s.called == multiset{}
    && s.sent == map[] && s.answered == map[] && s.handed == {}
    && s.workers <= s.pc.Keys
    && (forall p | p in s.queries :: s.queries[p] == [])
    && (forall t | t in s.pc :: s.pc[t] == Idle)
    && (forall p, i | p in s.items && 0 <= i < |s.items[p]| :: s.items[p][i] in s.conns && s.items[p][i].pool == p)
    && (forall p | p in s.items :: Unique(s.items[p]))
    && (forall it | it in s.conns :: it in ItemsOf(s, it.pool))
  }

  ghost predicate Unique<T>(l: seq<T>) {
    forall i, j | 0 <= i < j < |l| :: l[i] != l[j]
  }

  /** A run: it starts as `db_init` leaves things, and one thread after the other takes a step, in any order. */
  ghost predicate Run(states: seq<State>) {
    |states| > 0 && Init(states[0]) && forall i | 0 <= i < |states| - 1 :: Next(states[i], states[i + 1])
  }

  ghost predicate Next(s: State, s': State) {
    exists t, c :: Enabled(s, t, c) && s' == Do(s, t, c)
  }
}

/** Where connections and queries are, who holds which lock, and what each program point may rely on. */
module DbPlaces {
  import opened DbPool

  datatype Opt<T> = None | Some(value: T)

  // ---------- program points ----------

  /** The pool whose lock a thread holds there. */
  function PoolOf(c: Pc): Opt<Pool> {
    match c
    case SubmitIn(q) => Some(q.pool)
    case TakeItem(q) => Some(q.pool)
    case PutQuery(q) => Some(q.pool)
    case GiveIn(it, _) => Some(it.pool)
    case TakeQuery(it, _) => Some(it.pool)
    case PutItem(it, _) => Some(it.pool)
    case Pair(it, _, _) => Some(it.pool)
    case Choose(it, _, _) => Some(it.pool)
    case SendNow(it, _, _) => Some(it.pool)
    case WantW(it, _, _) => Some(it.pool)
    case InW(it, _, _) => Some(it.pool)
    case Publish(it, _, _, _) => Some(it.pool)
    case OutW(p, _) => Some(p)
    case Post(p, _) => Some(p)
    case Release(p, _) => Some(p)
    case _ => None
  }

  predicate HoldsW(c: Pc) {
    c.InW? || c.Publish? || c.OutW? || c.WorkIn? || c.WorkDrop? || c.WorkOut?
  }

  /** Past `sem_wait`, the list not yet shortened. */
  predicate PastWait(c: Pc) {
    c.WorkLock? || c.WorkIn? || c.WorkDrop?
  }

  /** The list lengthened, `sem_post` still to come. */
  predicate Unposted(c: Pc) {
    c.OutW? || c.Post?
  }

  function QueryOf(k: Then): set<Query> {
    match k case Stop => {} case Unpack(q) => {q} case Callback(q) => {q}
  }

  /** The connections in the hands of a thread. */
  function Held(item: map<Query, Item>, c: Pc): set<Item> {
    match c
    case Give(it, _) => {it}
    case GiveIn(it, _) => {it}
    case TakeQuery(it, _) => {it}
    case PutItem(it, _) => {it}
    case Pair(it, _, _) => {it}
    case Choose(it, _, _) => {it}
    case SendNow(it, _, _) => {it}
    case WantW(it, _, _) => {it}
    case InW(it, _, _) => {it}
    case Publish(it, _, _, _) => {it}
    case WorkOut(it, _) => {it}
    case Send(it, _) => {it}
    case Sent(it, _) => {it}
    case Check(it, q) => if q.fetch then {} else {it}
    case Resume(it, _) => {it}
    case Unpacking(q) => if q.fetch && q in item then {item[q]} else {}
    case Fetching(it, _) => {it}
    case Opening(it, _) => {it}
    case _ => {}
  }

  /** The queries in the hands of a thread. */
  function HeldQ(c: Pc): set<Query> {
    match c
    case Submit(q) => {q}
    case SubmitIn(q) => {q}
    case TakeItem(q) => {q}
    case PutQuery(q) => {q}
    case Give(_, k) => QueryOf(k)
    case GiveIn(_, k) => QueryOf(k)
    case TakeQuery(_, k) => QueryOf(k)
    case PutItem(_, k) => QueryOf(k)
    case Pair(_, q, k) => {q} + QueryOf(k)
    case Choose(_, q, k) => {q} + QueryOf(k)
    case SendNow(_, q, k) => {q} + QueryOf(k)
    case WantW(_, q, k) => {q} + QueryOf(k)
    case InW(_, q, k) => {q} + QueryOf(k)
    case Publish(_, q, _, k) => {q} + QueryOf(k)
    case OutW(_, k) => QueryOf(k)
    case Post(_, k) => QueryOf(k)
    case Release(_, k) => QueryOf(k)
    case WorkOut(_, q) => {q}
    case Send(_, q) => {q}
    case Sent(_, q) => {q}
    case Resume(_, q) => {q}
    case Unpacking(q) => {q}
    case Fetching(_, q) => {q}
    case Opening(_, q) => {q}
    case Calling(q) => {q}
    case _ => {}
  }

  // ---------- places ----------

  datatype Place = Free | Paired(q: Query) | Tasked(q: Query) | Evented(q: Query) | Open(q: Query) | With(t: Tid)

  ghost predicate ItemIs(s: State, q: Query, it: Item) {
    q in s.item && s.item[q] == it
  }

  /** The connection is in the pool, in a waiting pair, behind an unpack task, behind a pending select task, behind a
      result not yet finalized, or with a thread. */
  ghost predicate AtPlace(s: State, it: Item, pl: Place) {
    match pl
    case Free => it in ItemsOf(s, it.pool)
    case Paired(q) => q in s.waiting && ItemIs(s, q, it)
    case Tasked(q) => q in s.tasks && q.fetch && ItemIs(s, q, it)
    case Evented(q) => q in s.events && ItemIs(s, q, it)
    case Open(q) => q in s.open && s.open[q] == it
    case With(t) => t in s.pc && it in Held(s.item, s.pc[t])
  }

  datatype QPlace = Queued | Waiting | InTask | InEvent | HeldBy(t: Tid) | Done

  ghost predicate QAt(s: State, q: Query, pl: QPlace) {
    match pl
    case Queued => q in QueriesOf(s, q.pool)
    case Waiting => q in s.waiting
    case InTask => q in s.tasks
    case InEvent => q in s.events
    case HeldBy(t) => t in s.pc && q in HeldQ(s.pc[t])
    case Done => q in s.called
  }

  /** Every connection of the core is in exactly the place `w` says. */
  ghost predicate ItemsAt(s: State, w: map<Item, Place>) {
    w.Keys == s.conns && forall it, pl :: AtPlace(s, it, pl) <==> it in w && w[it] == pl
  }

  /** Every query submitted so far is in exactly the place `w` says, and no other query is anywhere. */
  ghost predicate QueriesAt(s: State, w: map<Query, QPlace>) {
    w.Keys == s.known && forall q, pl :: QAt(s, q, pl) <==> q in w && w[q] == pl
  }

  ghost predicate CalledOnce(s: State) {
    forall q :: s.called[q] <= 1
  }

  // ---------- locks and local facts ----------

  ghost predicate PoolLocks(s: State) {
    (forall t | t in s.pc && PoolOf(s.pc[t]).Some? :: PoolOf(s.pc[t]).value in s.poolLock
      && s.poolLock[PoolOf(s.pc[t]).value] == t)
    && (forall p | p in s.poolLock :: s.poolLock[p] in s.pc && PoolOf(s.pc[s.poolLock[p]]) == Some(p))
  }

  ghost predicate WLock(s: State) {
    s.wLock.Keys <= {true}
    && (forall t | t in s.pc && HoldsW(s.pc[t]) :: true in s.wLock && s.wLock[true] == t)
    && (true in s.wLock ==> s.wLock[true] in s.pc && HoldsW(s.pc[s.wLock[true]]))
  }

  ghost predicate PoolLists(s: State) {
    (forall p, i | 0 <= i < |ItemsOf(s, p)| :: ItemsOf(s, p)[i].pool == p)
    && (forall p, i | 0 <= i < |QueriesOf(s, p)| :: QueriesOf(s, p)[i].pool == p)
    && (forall p :: Unique(ItemsOf(s, p)) && Unique(QueriesOf(s, p)))
    && Unique(s.waiting)
  }

  /** No pool has both a free connection and a queued query. */
  ghost predicate NotBoth(s: State) {
    forall p :: ItemsOf(s, p) == [] || QueriesOf(s, p) == []
  }

  function ThenOf(c: Pc): Then {
    match c
    case Give(_, k) => k
    case GiveIn(_, k) => k
    case TakeQuery(_, k) => k
    case PutItem(_, k) => k
    case Pair(_, _, k) => k
    case Choose(_, _, k) => k
    case SendNow(_, _, k) => k
    case WantW(_, _, k) => k
    case InW(_, _, k) => k
    case Publish(_, _, _, k) => k
    case OutW(_, k) => k
    case Post(_, k) => k
    case Release(_, k) => k
    case _ => Stop
  }

  /** What a thread may rely on at its program point. */
  ghost predicate PcOk(s: State, c: Pc) {
    (ThenOf(c).Unpack? ==> ThenOf(c).q in s.item && !ThenOf(c).q.fetch) && PointOk(s, c)
    && (c.Pair? || c.Choose? || c.SendNow? || c.WantW? || c.InW? || c.Publish? ==> c.q !in QueryOf(c.k))
  }

  ghost predicate PointOk(s: State, c: Pc) {
    match c
    case TakeItem(q) => ItemsOf(s, q.pool) != []
    case PutQuery(q) => ItemsOf(s, q.pool) == []
    case TakeQuery(it, _) => QueriesOf(s, it.pool) != []
    case PutItem(it, _) => QueriesOf(s, it.pool) == []
    case Pair(it, q, _) => it.pool == q.pool
    case Choose(it, q, _) => ItemIs(s, q, it)
    case SendNow(it, q, _) => ItemIs(s, q, it)
    case WantW(it, q, _) => ItemIs(s, q, it)
    case InW(it, q, _) => ItemIs(s, q, it)
    case Publish(it, q, next, _) => ItemIs(s, q, it) && next == s.waiting
    case WorkDrop(q, next) => s.waiting == [q] + next
    case WorkOut(it, q) => ItemIs(s, q, it)
    case Send(it, q) => ItemIs(s, q, it)
    case Sent(it, q) => ItemIs(s, q, it)
    case Resume(it, q) => ItemIs(s, q, it)
    case Unpacking(q) => q in s.item
    case Fetching(it, q) => ItemIs(s, q, it)
    case Opening(it, q) => ItemIs(s, q, it)
    case _ => true
  }

  ghost predicate Local(s: State) {
    forall t | t in s.pc :: PcOk(s, s.pc[t])
  }

  /** Queries that have left their pool know their connection, and it is one of their own pool; open results
      belong to queries whose callback has run. */
  ghost predicate Paired1(s: State) {
    (forall q | q in s.waiting || q in s.tasks || q in s.events :: q in s.item)
    && (forall q | q in s.item :: s.item[q].pool == q.pool)
    && (forall q | q in s.open :: q in s.called)
  }

  ghost function PastWaiters(s: State): set<Tid> {
    set t | t in s.pc && PastWait(s.pc[t])
  }

  ghost function Posters(s: State): set<Tid> {
    set t | t in s.pc && Unposted(s.pc[t])
  }

  /** The semaphore accounts for the waiting list. */
  ghost predicate Balanced(s: State) {
    |s.waiting| == s.sem + |PastWaiters(s)| + |Posters(s)|
  }

  /** The program points of `work`. */
  predicate AtWork(c: Pc) {
    c.WorkLock? || c.WorkIn? || c.WorkDrop? || c.WorkOut? || c.Send? || c.Sent? || c.Check?
  }

  /** The program points of a worker: its own, and those of `db_submit_item` called from there. */
  predicate ForWorker(c: Pc) {
    c == Idle || AtWork(c) || (InPool(c) && !c.Submit? && !c.SubmitIn? && !c.TakeItem? && !c.PutQuery?
      && ThenOf(c) == Stop)
  }

  /** Only DB workers run the program points of `work`, and they run no others but those of `db_submit_item`. */
  ghost predicate Roles(s: State) {
    s.workers <= s.pc.Keys && forall t | t in s.pc :: if t in s.workers then ForWorker(s.pc[t]) else !AtWork(s.pc[t])
  }

  ghost predicate Sound(s: State) {
    PoolLocks(s) && WLock(s) && PoolLists(s) && NotBoth(s) && Local(s) && Paired1(s) && Balanced(s) && CalledOnce(s)
    && Roles(s)
  }
}

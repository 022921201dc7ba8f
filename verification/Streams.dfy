/** Slots, reservations and HTTP/3 tunnel streams over every interleaving: TCP handlers, HTTP/3 requests opening
    streams, exchanges, the pool and its watchers, slot waiters, retiring agents, ending connections and shutdown.
    Every atomic operation and every section under the pool's lock is one step; `put`, whose checks read what others
    change meanwhile, is three. The pool's lists are those of `Pool`: here a stream is idle or it is not. */
module Streams {
  import opened Options
  import opened Basics

  type Id = nat
  type Route = nat
  type Agent = nat
  type Conn = nat
  type Host = string

  /** An HTTP/3 request, as far as streams go. */
  datatype Req = Req(conn: Conn, host: Host, route: Route)

  datatype Who = Tcp(tcpRoute: Route) | H3(req: Req)
  {
    function Route(): Route { if Tcp? then tcpRoute else req.route }
  }

  /** A handler on its way to a stream. */
  datatype Phase =
    | Asking           // about to try for a slot
    | Full             // the route was full
    | Evicting         // counted as a waiter, about to look for a kept stream
    | Closing(v: Id)   // took `v` out of the pool, closing it
    | Dry              // found none
    | Lucky            // has a slot, still counted
    | Unlucky          // gives up, still counted
    | Serving          // has a slot, no attempt
    | Trying(a: Agent) // has a slot, an attempt reserved on `a`
    | Holding(a: Agent)// the attempt succeeded
    | Ending           // its stream is gone, the slot not yet released
    | Gone

  /** Where a tunnel stream is. */
  datatype Place =
    | InUse(q: Req)      // in an exchange
    | Checked(q: Req)    // in `put`: pool, connection, share and waiters looked at
    | Cleared(q: Req)    // in `put`: the agent was not retired either
    | Idle(conn: Conn)   // in the pool
    | TakenBy(q: Req)    // out of the pool; `take` waits for the watcher
    | Out                // closed, or to be closed by whoever has it

  /** How far `close` has got. */
  datatype Life = Open | Aborted | Uncounted | Closed

  datatype Watch = NoWatch | Reading | Got(data: bool, timeout: bool) | Finished(live: bool)

  /** `eaten`: bytes its watchers have read. `carried`: the requests sent on it. */
  datatype Stream = Stream(agent: Agent, route: Route, host: Host, place: Place, life: Life, watch: Watch, eaten: nat,
                           carried: seq<Req>)

  datatype Holder = Task(who: Who, phase: Phase) | Tunnel(s: Stream)

  // ---- What is counted ----

  datatype Key = Slot(r: Route) | Active(a: Agent) | Waiter(wr: Route)

  predicate Holds(h: Holder, k: Key) {
    match h
    case Task(who, p) =>
      (match k
       case Slot(r) => r == who.Route() && (p.Lucky? || p.Serving? || p.Trying? || p.Holding? || p.Ending?)
       case Active(a) => (p.Trying? || p.Holding?) && p.a == a
       case Waiter(r) => r == who.Route() && (p.Evicting? || p.Closing? || p.Dry? || p.Lucky? || p.Unlucky?))
    case Tunnel(s) =>
      match k
      case Slot(r) => r == s.route && !s.life.Closed?
      case Active(a) => a == s.agent && (s.life.Open? || s.life.Aborted?)
      case Waiter(_) => false
  }

  type Counters = map<Key, int>

  function Value(c: Counters, k: Key): int { if k in c then c[k] else 0 }
  function Add(c: Counters, k: Key, d: int): Counters { c[k := Value(c, k) + d] }

  type Holders = map<Id, Holder>

  ghost function Keeping(hs: Holders, k: Key): set<Id> { set i | i in hs && Holds(hs[i], k) }
  ghost function Count(hs: Holders, k: Key): nat { |Keeping(hs, k)| }

  /** Every counter is the number of its holders. */
  ghost predicate Conserved(c: Counters, hs: Holders) { forall k: Key :: Value(c, k) == Count(hs, k) }

  /** `caps`: a route without a cap is unlimited. */
  predicate Free(caps: map<Route, nat>, c: Counters, r: Route) { r in caps ==> Value(c, Slot(r)) < caps[r] }

  ghost predicate Capped(caps: map<Route, nat>, c: Counters) {
    forall r :: r in caps ==> Value(c, Slot(r)) <= caps[r]
  }

  // ---- Steps of handlers ----

  datatype TaskEvent =
    | FirstTry | CountIn | RetryAfter | Acquire | GiveUp | CountOut
    | Reserve(a: Agent) | Fail | Win | Refuse | HangUp | Release

  predicate TaskEnabled(caps: map<Route, nat>, c: Counters, who: Who, p: Phase, e: TaskEvent) {
    match e
    case FirstTry => p.Asking?
    case CountIn => p.Full?
    case RetryAfter => p.Closing?
    case Acquire => p.Dry? && who.H3? && Free(caps, c, who.Route())
    case GiveUp => p.Dry?
    case CountOut => p.Lucky? || p.Unlucky?
    case Reserve(_) => p.Serving?
    case Fail => p.Trying?
    case Win => p.Trying?
    case Refuse => p.Serving?
    case HangUp => p.Holding?
    case Release => p.Ending?
  }

  /** The phase after a step, and what it adds to which counter. */
  function TaskStep(caps: map<Route, nat>, c: Counters, who: Who, p: Phase, e: TaskEvent): (Phase, Key, int)
    requires TaskEnabled(caps, c, who, p, e)
  {
    var r := who.Route();
    match e
    case FirstTry => if Free(caps, c, r) then (Serving, Slot(r), 1) else (Full, Slot(r), 0)
    case CountIn => (Evicting, Waiter(r), 1)
    case RetryAfter => if Free(caps, c, r) then (Lucky, Slot(r), 1) else (Evicting, Slot(r), 0)
    case Acquire => (Lucky, Slot(r), 1)
    case GiveUp => (Unlucky, Slot(r), 0)
    case CountOut => (if p.Lucky? then Serving else Gone, Waiter(r), -1)
    case Reserve(a) => (Trying(a), Active(a), 1)
    case Fail => (Serving, Active(p.a), -1)
    case Win => (Holding(p.a), Slot(r), 0)
    case Refuse => (Gone, Slot(r), -1)
    case HangUp => (Ending, Active(p.a), -1)
    case Release => (Gone, Slot(r), -1)
  }

  // ---- Steps of one stream ----

  /** The pool's flags: shut down, connections ended, agents retired, agents whose streams `retire` has closed, and the
      stream whose `put` holds the lock. */
  datatype Flags = Flags(shut: bool, ended: set<Conn>, retired: set<Agent>, swept: set<Agent>, lock: Option<Id>)

  datatype StreamEvent =
    | EndUse | PutCheck(full: bool) | PutRetired | PutInsert
    | WatchRead(data: bool, timeout: bool) | WatchLock
    | TakeRemove(q: Req) | TakeCheck(ok: bool)
    | CloseBegin | CloseCount | CloseSlot

  predicate StreamEnabled(f: Flags, i: Id, s: Stream, e: StreamEvent) {
    match e
    case EndUse => s.place.InUse?
    case PutCheck(_) => s.place.InUse? && f.lock.None?
    case PutRetired => s.place.Checked? && f.lock == Some(i)
    case PutInsert => s.place.Cleared? && f.lock == Some(i)
    case WatchRead(data, timeout) => s.watch.Reading? && !(data && timeout)
    case WatchLock => s.watch.Got? && f.lock.None?
    case TakeRemove(q) => s.place == Idle(q.conn) && s.host == q.host && f.lock.None?
    case TakeCheck(ok) =>
      && s.place.TakenBy? && s.watch.Finished?
      && (ok ==> s.watch.live && s.route == s.place.q.route && s.agent !in f.retired)
    case CloseBegin => s.place.Out? && s.life.Open?
    case CloseCount => s.life.Aborted?
    case CloseSlot => s.life.Uncounted?
  }

  function StreamStep(f: Flags, waiters: int, i: Id, s: Stream, e: StreamEvent): Stream
    requires StreamEnabled(f, i, s, e)
  {
    match e
    case EndUse => s.(place := Out)
    case PutCheck(full) =>
      if f.shut || s.place.q.conn in f.ended || full || waiters > 0 then s.(place := Out)
      else s.(place := Checked(s.place.q))
    case PutRetired => s.(place := if s.agent in f.retired then Out else Cleared(s.place.q))
    case PutInsert => s.(place := Idle(s.place.q.conn), watch := Reading)
    case WatchRead(data, timeout) => s.(watch := Got(data, timeout), eaten := s.eaten + if data then 1 else 0)
    case WatchLock =>
      if s.place.Idle? then s.(place := Out, watch := Finished(false))
      else s.(watch := Finished(!s.watch.data && s.watch.timeout))
    case TakeRemove(q) => s.(place := TakenBy(q))
    case TakeCheck(ok) =>
      if ok then s.(place := InUse(s.place.q), carried := s.carried + [s.place.q]) else s.(place := Out)
    case CloseBegin => s.(life := Aborted)
    case CloseCount => s.(life := Uncounted)
    case CloseSlot => s.(life := Closed)
  }

  function StreamAdds(s: Stream, e: StreamEvent): (Key, int) {
    if e.CloseCount? then (Active(s.agent), -1) else if e.CloseSlot? then (Slot(s.route), -1) else (Slot(s.route), 0)
  }

  function LockAfter(f: Flags, i: Id, s': Stream, e: StreamEvent): Flags {
    if e.PutCheck? || e.PutRetired? || e.PutInsert? then
      f.(lock := if s'.place.Checked? || s'.place.Cleared? then Some(i) else None)
    else f
  }

  // ---- The whole system ----

  datatype State = State(counters: Counters, holders: Holders, flags: Flags)

  datatype Which = OfConn(c: Conn) | OfAgent(a: Agent) | Every
  {
    predicate Is(s: Stream) {
      s.place.Idle? && match this case OfConn(c) => s.place.conn == c case OfAgent(a) => s.agent == a case Every => true
    }
  }

  datatype Event =
    | Arrive(i: Id, who: Who)
    | OfTask(i: Id, t: TaskEvent)
    | EvictNone(i: Id)
    | EvictOne(i: Id, v: Id)
    | OpenDone(i: Id)
    | OfStream(i: Id, e: StreamEvent)
    | Retire(a: Agent)
    | Sweep(w: Which)

  ghost predicate IsTask(s: State, i: Id) { i in s.holders && s.holders[i].Task? }
  ghost predicate IsTunnel(s: State, i: Id) { i in s.holders && s.holders[i].Tunnel? }
  ghost predicate IdleOn(s: State, v: Id, r: Route) {
    IsTunnel(s, v) && s.holders[v].s.place.Idle? && s.holders[v].s.route == r
  }

  ghost predicate Enabled(caps: map<Route, nat>, s: State, e: Event) {
    match e
    case Arrive(i, who) => i !in s.holders
    case OfTask(i, t) =>
      && IsTask(s, i) && TaskEnabled(caps, s.counters, s.holders[i].who, s.holders[i].phase, t)
      && (t.RetryAfter? ==> IsTunnel(s, s.holders[i].phase.v) && s.holders[s.holders[i].phase.v].s.life.Closed?)
    case EvictNone(i) =>
      && IsTask(s, i) && s.holders[i].phase.Evicting? && s.flags.lock.None?
      && forall v <- s.holders :: !IdleOn(s, v, s.holders[i].who.Route())
    case EvictOne(i, v) =>
      && IsTask(s, i) && s.holders[i].phase.Evicting? && s.flags.lock.None? && IdleOn(s, v, s.holders[i].who.Route())
    case OpenDone(i) => IsTask(s, i) && s.holders[i].phase.Holding? && s.holders[i].who.H3?
    case OfStream(i, x) => IsTunnel(s, i) && StreamEnabled(s.flags, i, s.holders[i].s, x)
    case Retire(a) => true
    case Sweep(w) => s.flags.lock.None? && (w.OfAgent? ==> w.a in s.flags.retired)
  }

  function Opened(who: Who, a: Agent): Stream
    requires who.H3?
  {
    Stream(a, who.req.route, who.req.host, InUse(who.req), Open, NoWatch, 0, [who.req])
  }

  function Swept(hs: Holders, w: Which): Holders {
    map i | i in hs :: if hs[i].Tunnel? && w.Is(hs[i].s) then Tunnel(hs[i].s.(place := Out)) else hs[i]
  }

  function SweptFlags(f: Flags, w: Which): Flags {
    match w
    case OfConn(c) => f.(ended := f.ended + {c})
    case OfAgent(a) => f.(swept := f.swept + {a})
    case Every => f.(shut := true)
  }

  function PutOut(h: Holder): Holder
    requires h.Tunnel?
  {
    Tunnel(h.s.(place := Out))
  }

  ghost function Apply(caps: map<Route, nat>, s: State, e: Event): State
    requires Enabled(caps, s, e)
  {
    match e
    case Arrive(i, who) => s.(holders := s.holders[i := Task(who, Asking)])
    case OfTask(i, t) =>
      var (p, k, d) := TaskStep(caps, s.counters, s.holders[i].who, s.holders[i].phase, t);
      s.(holders := s.holders[i := Task(s.holders[i].who, p)], counters := Add(s.counters, k, d))
    case EvictNone(i) => s.(holders := s.holders[i := Task(s.holders[i].who, Dry)])
    case EvictOne(i, v) =>
      s.(holders := s.holders[v := PutOut(s.holders[v])][i := Task(s.holders[i].who, Closing(v))])
    case OpenDone(i) => s.(holders := s.holders[i := Tunnel(Opened(s.holders[i].who, s.holders[i].phase.a))])
    case OfStream(i, x) =>
      var was := s.holders[i].s;
      var now := StreamStep(s.flags, Value(s.counters, Waiter(was.route)), i, was, x);
      var (k, d) := StreamAdds(was, x);
      State(Add(s.counters, k, d), s.holders[i := Tunnel(now)], LockAfter(s.flags, i, now, x))
    case Retire(a) => s.(flags := s.flags.(retired := s.flags.retired + {a}))
    case Sweep(w) => s.(holders := Swept(s.holders, w), flags := SweptFlags(s.flags, w))
  }

  const START := State(map[], map[], Flags(false, {}, {}, {}, None))

  ghost predicate Next(caps: map<Route, nat>, s: State, s': State) {
    exists e :: Enabled(caps, s, e) && s' == Apply(caps, s, e)
  }

  ghost predicate Run(caps: map<Route, nat>, r: seq<State>) {
    r != [] && r[0] == START && forall i: nat :: i < |r| - 1 ==> NextAt(caps, r, i)
  }

  ghost predicate NextAt(caps: map<Route, nat>, r: seq<State>, i: nat)
    requires i + 1 < |r|
  {
    Next(caps, r[i], r[i + 1])
  }

  // ---- Conservation ----

  lemma Change(hs: Holders, i: Id, h: Holder, k: Key)
    ensures Count(hs[i := h], k) == Count(hs, k) + One(Holds(h, k)) - One(i in hs && Holds(hs[i], k))
  {
    Recount(Keeping(hs, k), Keeping(hs[i := h], k), i);
  }

  /** One holder changes, and one counter by as much. */
  lemma ChangeOne(c: Counters, hs: Holders, i: Id, h: Holder, key: Key, d: int)
    requires Conserved(c, hs)
    requires forall k: Key :: One(Holds(h, k)) - One(i in hs && Holds(hs[i], k)) == if k == key then d else 0
    ensures Conserved(Add(c, key, d), hs[i := h])
  {
    forall k: Key ensures Value(Add(c, key, d), k) == Count(hs[i := h], k) { Change(hs, i, h, k); }
  }

  /** No holder changes what it holds. */
  lemma ChangeNone(c: Counters, hs: Holders, hs': Holders)
    requires Conserved(c, hs)
    requires hs.Keys == hs'.Keys && forall i <- hs, k: Key :: Holds(hs'[i], k) == Holds(hs[i], k)
    ensures Conserved(c, hs')
  {
    forall k: Key ensures Value(c, k) == Count(hs', k) { assert Keeping(hs, k) == Keeping(hs', k); }
  }

  lemma TaskStepAdds(caps: map<Route, nat>, c: Counters, who: Who, p: Phase, e: TaskEvent)
    requires TaskEnabled(caps, c, who, p, e)
    ensures var (p', key, d) := TaskStep(caps, c, who, p, e);
      forall k: Key :: One(Holds(Task(who, p'), k)) - One(Holds(Task(who, p), k)) == if k == key then d else 0
  {}

  lemma StreamStepAdds(f: Flags, waiters: int, i: Id, s: Stream, e: StreamEvent)
    requires StreamEnabled(f, i, s, e)
    ensures var (key, d) := StreamAdds(s, e);
      var s' := StreamStep(f, waiters, i, s, e);
      forall k: Key :: One(Holds(Tunnel(s'), k)) - One(Holds(Tunnel(s), k)) == if k == key then d else 0
  {}

  lemma NextConserves(caps: map<Route, nat>, s: State, e: Event)
    requires Enabled(caps, s, e) && Conserved(s.counters, s.holders)
    ensures Conserved(Apply(caps, s, e).counters, Apply(caps, s, e).holders)
  {
    var s' := Apply(caps, s, e);
    match e
    case Arrive(i, who) =>
      ChangeOne(s.counters, s.holders, i, Task(who, Asking), Slot(0), 0);
    case OfTask(i, t) =>
      var h := s.holders[i];
      var (p, k, d) := TaskStep(caps, s.counters, h.who, h.phase, t);
      TaskStepAdds(caps, s.counters, h.who, h.phase, t);
      ChangeOne(s.counters, s.holders, i, Task(h.who, p), k, d);
    case OfStream(i, x) =>
      var h := s.holders[i].s;
      var waiters := Value(s.counters, Waiter(h.route));
      var (k, d) := StreamAdds(h, x);
      StreamStepAdds(s.flags, waiters, i, h, x);
      ChangeOne(s.counters, s.holders, i, Tunnel(StreamStep(s.flags, waiters, i, h, x)), k, d);
    case _ => ChangeNone(s.counters, s.holders, s'.holders);
  }

  lemma NextCapped(caps: map<Route, nat>, s: State, e: Event)
    requires Enabled(caps, s, e) && Capped(caps, s.counters)
    ensures Capped(caps, Apply(caps, s, e).counters)
  {}

  // ---- Isolation ----

  /** All of a stream's requests are of one connection, host and route. */
  ghost predicate Alike(s: Stream) {
    && s.carried != []
    && forall q <- s.carried :: q == Req(s.carried[0].conn, s.host, s.route)
  }

  /** The request in an exchange is the last one sent, an idle stream is in its own connection's pool, and only
      requests of that connection and host wait for it. */
  ghost predicate Placed(s: Stream)
    requires s.carried != []
  {
    var conn := s.carried[0].conn;
    match s.place
    case InUse(q) => q == s.carried[|s.carried| - 1]
    case Checked(q) => q.conn == conn
    case Cleared(q) => q.conn == conn
    case Idle(c) => c == conn
    case TakenBy(q) => q.conn == conn && q.host == s.host
    case Out => true
  }

  /** While requests use it no watcher reads from it and none has read a byte; outside the pool's hands it is open. */
  ghost predicate Watched(s: Stream) {
    && (s.place.InUse? || s.place.Checked? || s.place.Cleared? ==>
          s.eaten == 0 && (s.watch.NoWatch? || s.watch == Finished(true)))
    && (s.place.Idle? ==> s.watch.Reading? || s.watch.Got?)
    && (s.place.TakenBy? ==> !s.watch.NoWatch?)
    && (s.place.Idle? || s.place.TakenBy? ==>
          match s.watch
          case NoWatch => true
          case Reading => s.eaten == 0
          case Got(data, timeout) => s.eaten == One(data) && !(data && timeout)
          case Finished(live) => live ==> s.eaten == 0)
    && (!s.place.Out? ==> s.life.Open?)
  }

  ghost predicate Isolated(s: Stream) { Alike(s) && Placed(s) && Watched(s) }

  ghost predicate AllIsolated(hs: Holders) { forall i <- hs :: hs[i].Tunnel? ==> Isolated(hs[i].s) }

  lemma StreamStepIsolates(f: Flags, waiters: int, i: Id, s: Stream, e: StreamEvent)
    requires StreamEnabled(f, i, s, e) && Isolated(s)
    ensures Isolated(StreamStep(f, waiters, i, s, e))
  {
    assert s.carried[|s.carried| - 1] in s.carried;
    if e.TakeCheck? && e.ok {
      var q := s.place.q;
      assert q == Req(s.carried[0].conn, s.host, s.route);
      assert (s.carried + [q])[0] == s.carried[0];
    }
  }

  lemma NextIsolates(caps: map<Route, nat>, s: State, e: Event)
    requires Enabled(caps, s, e) && AllIsolated(s.holders)
    ensures AllIsolated(Apply(caps, s, e).holders)
  {
    if e.OfStream? {
      var h := s.holders[e.i].s;
      StreamStepIsolates(s.flags, Value(s.counters, Waiter(h.route)), e.i, h, e.e);
    }
  }

  // ---- Races with put ----

  /** Only the stream whose `put` holds the lock is past `put`'s checks. */
  ghost predicate Locked(s: State) {
    forall i <- s.holders | IsTunnel(s, i) ::
      s.holders[i].s.place.Checked? || s.holders[i].s.place.Cleared? ==> s.flags.lock == Some(i)
  }

  /** Past `put`'s look at the waiters, or in the pool. */
  predicate Entering(t: Stream) { t.place.Checked? || t.place.Cleared? || t.place.Idle? }

  function ConnOf(t: Stream): Conn
    requires Entering(t)
  {
    if t.place.Idle? then t.place.conn else t.place.q.conn
  }

  /** No stream of a swept agent is in the pool or about to be; none of an ended connection; none after shutdown. */
  ghost predicate KeptOut(f: Flags, hs: Holders) {
    && f.swept <= f.retired
    && (forall i <- hs | hs[i].Tunnel? ::
          hs[i].s.place.Cleared? || hs[i].s.place.Idle? ==> hs[i].s.agent !in f.swept)
    && (forall i <- hs :: hs[i].Tunnel? && Entering(hs[i].s) ==> !f.shut && ConnOf(hs[i].s) !in f.ended)
  }

  /** A waiter that found no kept stream. */
  predicate Starved(h: Holder, r: Route) { h.Task? && h.who.Route() == r && (h.phase.Dry? || h.phase.Unlucky?) }

  /** While one waits, no stream of its route is in the pool or about to be. */
  ghost predicate GivenUp(hs: Holders) {
    forall i, j :: i in hs && j in hs && hs[j].Tunnel? && Entering(hs[j].s) ==> !Starved(hs[i], hs[j].s.route)
  }

  lemma NextLocked(caps: map<Route, nat>, s: State, e: Event)
    requires Enabled(caps, s, e) && Locked(s)
    ensures Locked(Apply(caps, s, e))
  {}

  lemma NextKeptOut(caps: map<Route, nat>, s: State, e: Event)
    requires Enabled(caps, s, e) && Locked(s) && KeptOut(s.flags, s.holders)
    ensures KeptOut(Apply(caps, s, e).flags, Apply(caps, s, e).holders)
  {
    if e.OfStream? { StreamKeptOut(s, e.i, e.e); }
  }

  lemma StreamKeptOut(s: State, i: Id, e: StreamEvent)
    requires IsTunnel(s, i) && StreamEnabled(s.flags, i, s.holders[i].s, e) && KeptOut(s.flags, s.holders)
    ensures var was := s.holders[i].s;
      var now := StreamStep(s.flags, Value(s.counters, Waiter(was.route)), i, was, e);
      KeptOut(LockAfter(s.flags, i, now, e), s.holders[i := Tunnel(now)])
  {}

  lemma HolderCounts(hs: Holders, i: Id, k: Key)
    requires i in hs && Holds(hs[i], k)
    ensures Count(hs, k) > 0
  {
    assert i in Keeping(hs, k);
  }

  lemma NextGivenUp(caps: map<Route, nat>, s: State, e: Event)
    requires Enabled(caps, s, e) && Locked(s) && GivenUp(s.holders) && Conserved(s.counters, s.holders)
    ensures GivenUp(Apply(caps, s, e).holders)
  {
    forall i <- s.holders, r: Route | Starved(s.holders[i], r) ensures Value(s.counters, Waiter(r)) > 0 {
      HolderCounts(s.holders, i, Waiter(r));
    }
  }

  // ---- Over whole runs ----

  ghost predicate Inv(caps: map<Route, nat>, s: State) {
    && Conserved(s.counters, s.holders) && Capped(caps, s.counters)
    && AllIsolated(s.holders)
    && Locked(s) && KeptOut(s.flags, s.holders) && GivenUp(s.holders)
  }

  lemma {:induction false} RunKeeps(caps: map<Route, nat>, r: seq<State>, k: nat)
    requires Run(caps, r) && k < |r|
    ensures Inv(caps, r[k])
  {
    if k == 0 {
      forall key: Key ensures Value(START.counters, key) == Count(START.holders, key) {
        assert Keeping(START.holders, key) == {};
      }
    } else {
      RunKeeps(caps, r, k - 1);
      var s := r[k - 1];
      assert NextAt(caps, r, k - 1);
      var e: Event :| Enabled(caps, s, e) && r[k] == Apply(caps, s, e);
      NextConserves(caps, s, e);
      NextCapped(caps, s, e);
      NextIsolates(caps, s, e);
      NextLocked(caps, s, e);
      NextKeptOut(caps, s, e);
      NextGivenUp(caps, s, e);
    }
  }

  /** A handler that is done, or a stream whose `close` is. */
  predicate Ended(h: Holder) { if h.Task? then h.phase.Gone? else h.s.life.Closed? }

  /** What time does to a holder: a slot is given up only by ending, which is final and leaves nothing held; a stream
      stays the stream it is, and what it has carried stays. */
  ghost predicate HolderOnward(h: Holder, h': Holder) {
    && (Ended(h) ==> Ended(h'))
    && (forall r: Route :: Holds(h, Slot(r)) ==> Holds(h', Slot(r)) || Ended(h'))
    && (h.Tunnel? ==>
          && h'.Tunnel? && h'.s.agent == h.s.agent && h'.s.route == h.s.route && h'.s.host == h.s.host
          && h.s.carried <= h'.s.carried)
  }

  ghost predicate Onward(s: State, s': State) {
    && (forall i <- s.holders :: i in s'.holders && HolderOnward(s.holders[i], s'.holders[i]))
    && s.flags.swept <= s'.flags.swept && s.flags.retired <= s'.flags.retired
  }

  lemma NextOnward(caps: map<Route, nat>, s: State, e: Event)
    requires Enabled(caps, s, e)
    ensures Onward(s, Apply(caps, s, e))
  {}

  lemma {:induction false} RunOnward(caps: map<Route, nat>, r: seq<State>, k: nat, m: nat)
    requires Run(caps, r) && k <= m < |r|
    ensures Onward(r[k], r[m])
  {
    if k < m {
      RunOnward(caps, r, k, m - 1);
      assert NextAt(caps, r, m - 1);
      var e: Event :| Enabled(caps, r[m - 1], e) && r[m] == Apply(caps, r[m - 1], e);
      NextOnward(caps, r[m - 1], e);
      OnwardTwice(r[k], r[m - 1], r[m]);
    }
  }

  lemma OnwardTwice(a: State, b: State, c: State)
    requires Onward(a, b) && Onward(b, c)
    ensures Onward(a, c)
  {
    forall i <- a.holders ensures i in c.holders && HolderOnward(a.holders[i], c.holders[i]) {
      assert i in b.holders;
      assert HolderOnward(b.holders[i], c.holders[i]);
    }
  }
}

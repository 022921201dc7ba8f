/** What every run of `Streams` can still do: why a stream comes and goes from the pool, and that everything can be
    wound down from any state, with no slot, reservation or waiter left. */
module StreamProgress {
  import opened Streams

  // ---- How a stream moves ----

  /** A waiter of the stream's route takes it out of the pool to close it. */
  ghost predicate Evicted(s: State, s': State, v: Id, r: Route) {
    exists j <- s.holders :: EvictedBy(s, s', j, v, r)
  }

  ghost predicate EvictedBy(s: State, s': State, j: Id, v: Id, r: Route) {
    && IsTask(s, j) && s.holders[j].who.Route() == r && s.holders[j].phase.Evicting?
    && j in s'.holders && s'.holders[j] == Task(s.holders[j].who, Closing(v))
  }

  /** What one step can do to where a stream is, and what it takes. It is kept only while the pool and its connection
      are open, nobody waits for a slot of its route and its agent is not retired; it leaves the pool only for a
      request of its connection and host, because its watcher saw something, because its connection ended, its agent
      was retired or the edge shuts down, or for a waiter of its route; and it is used again only if its watcher was
      stopped with nothing seen, for a request of its route, with its agent not retired. */
  ghost predicate Moves(s: State, s': State, i: Id, was: Stream, now: Stream) {
    match was.place
    case InUse(q) =>
      || now.place.Out?
      || (now.place == Checked(q) && !s.flags.shut && q.conn !in s.flags.ended
          && Value(s.counters, Waiter(was.route)) <= 0)
    case Checked(q) => now.place == if was.agent in s.flags.retired then Out else Cleared(q)
    case Cleared(q) => now.place == Idle(q.conn) && now.watch.Reading?
    case Idle(c) =>
      || (now.place.TakenBy? && now.place.q.conn == c && now.place.q.host == was.host)
      || (now.place.Out?
          && (was.watch.Got? || s'.flags.shut || c in s'.flags.ended || was.agent in s'.flags.swept
              || Evicted(s, s', i, was.route)))
    case TakenBy(q) =>
      || now.place.Out?
      || (now.place == InUse(q) && now.carried == was.carried + [q] && was.watch == Finished(true)
          && was.route == q.route && was.agent !in s.flags.retired)
    case Out => false
  }

  lemma NextStream(caps: map<Route, nat>, s: State, e: Event, i: Id)
    requires Enabled(caps, s, e) && IsTunnel(s, i)
    ensures IsTunnel(Apply(caps, s, e), i)
    ensures var s' := Apply(caps, s, e);
      var was, now := s.holders[i].s, s'.holders[i].s;
      && (now.place == was.place ==> now.carried == was.carried)
      && (now.place != was.place ==> Moves(s, s', i, was, now))
  {
    var s' := Apply(caps, s, e);
    match e
    case OfStream(j, x) =>
      if j == i { StepMoves(s, s', i, x); }
    case EvictOne(j, v) =>
      if v == i { assert EvictedBy(s, s', j, v, s.holders[i].s.route); }
    case _ =>
  }

  lemma StepMoves(s: State, s': State, i: Id, e: StreamEvent)
    requires IsTunnel(s, i) && StreamEnabled(s.flags, i, s.holders[i].s, e)
    ensures var was := s.holders[i].s;
      var now := StreamStep(s.flags, Value(s.counters, Waiter(was.route)), i, was, e);
      && (now.place == was.place ==> now.carried == was.carried)
      && (now.place != was.place ==> Moves(s, s', i, was, now))
  {}

  /** `NextStream` at any step of any run. */
  lemma StreamMoves(caps: map<Route, nat>, run: seq<State>, k: nat, i: Id)
    requires Run(caps, run) && k + 1 < |run| && IsTunnel(run[k], i)
    ensures IsTunnel(run[k + 1], i)
    ensures var was, now := run[k].holders[i].s, run[k + 1].holders[i].s;
      if now.place == was.place then now.carried == was.carried else Moves(run[k], run[k + 1], i, was, now)
  {
    assert NextAt(caps, run, k);
    var e: Event :| Enabled(caps, run[k], e) && run[k + 1] == Apply(caps, run[k], e);
    NextStream(caps, run[k], e, i);
  }

  // ---- A stream that has closed is not used again ----

  /** Its watcher read a byte or the end of the stream, or it is out of use. */
  predicate Spent(s: Stream) {
    || s.place.Out?
    || ((s.place.Idle? || s.place.TakenBy?) && s.watch.Got? && s.watch != Got(false, true))
    || (s.place.TakenBy? && s.watch == Finished(false))
  }

  lemma NextSpent(caps: map<Route, nat>, s: State, e: Event, i: Id)
    requires Enabled(caps, s, e) && IsTunnel(s, i) && Spent(s.holders[i].s)
    ensures var s' := Apply(caps, s, e);
      IsTunnel(s', i) && Spent(s'.holders[i].s) && s'.holders[i].s.carried == s.holders[i].s.carried
  {}

  lemma {:induction false} SpentStays(caps: map<Route, nat>, run: seq<State>, k: nat, m: nat, i: Id)
    requires Run(caps, run) && k <= m < |run| && IsTunnel(run[k], i) && Spent(run[k].holders[i].s)
    ensures IsTunnel(run[m], i) && Spent(run[m].holders[i].s)
    ensures run[m].holders[i].s.carried == run[k].holders[i].s.carried
  {
    if k < m {
      SpentStays(caps, run, k, m - 1, i);
      assert NextAt(caps, run, m - 1);
      var e: Event :| Enabled(caps, run[m - 1], e) && run[m] == Apply(caps, run[m - 1], e);
      NextSpent(caps, run[m - 1], e, i);
    }
  }

  /** A kept stream whose watcher saw anything but its own interruption, be it a byte or the stream's end, never carries
      another request. */
  lemma SeenNeverReused(caps: map<Route, nat>, run: seq<State>, k: nat, m: nat, i: Id)
    requires Run(caps, run) && k <= m < |run| && IsTunnel(run[k], i)
    requires run[k].holders[i].s.watch.Got? && run[k].holders[i].s.watch != Got(false, true)
    ensures IsTunnel(run[m], i) && run[m].holders[i].s.carried == run[k].holders[i].s.carried
  {
    RunKeeps(caps, run, k);
    assert Isolated(run[k].holders[i].s);
    SpentStays(caps, run, k, m, i);
  }

  // ---- Winding down ----

  function Last(run: seq<State>): State
    requires run != []
  {
    run[|run| - 1]
  }

  /** The lock is held by a `put`, and whoever waits for a stream to close waits for a stream. */
  ghost predicate Waits(s: State) {
    && (s.flags.lock.Some? ==>
          var i := s.flags.lock.value;
          IsTunnel(s, i) && (s.holders[i].s.place.Checked? || s.holders[i].s.place.Cleared?))
    && (forall i <- s.holders :: IsTask(s, i) && s.holders[i].phase.Closing? ==> IsTunnel(s, s.holders[i].phase.v))
  }

  lemma NextWaits(caps: map<Route, nat>, s: State, e: Event)
    requires Enabled(caps, s, e) && Waits(s)
    ensures Waits(Apply(caps, s, e))
  {}

  lemma {:induction false} RunWaits(caps: map<Route, nat>, run: seq<State>, k: nat)
    requires Run(caps, run) && k < |run|
    ensures Waits(run[k])
  {
    if k > 0 {
      RunWaits(caps, run, k - 1);
      assert NextAt(caps, run, k - 1);
      var e: Event :| Enabled(caps, run[k - 1], e) && run[k] == Apply(caps, run[k - 1], e);
      NextWaits(caps, run[k - 1], e);
    }
  }

  /** The holders that are not done. */
  ghost function Busy(s: State): set<Id> { set i | i in s.holders && !Ended(s.holders[i]) }

  lemma NextBusy(caps: map<Route, nat>, s: State, e: Event)
    requires Enabled(caps, s, e) && !e.Arrive?
    ensures Busy(Apply(caps, s, e)) <= Busy(s) && Apply(caps, s, e).holders.Keys == s.holders.Keys
  {
    NextOnward(caps, s, e);
  }

  /** A longer run in which nobody new has come. */
  ghost predicate Continues(caps: map<Route, nat>, run: seq<State>, q: seq<State>) {
    && Run(caps, run) && Run(caps, q) && run <= q
    && Busy(Last(q)) <= Busy(Last(run)) && Last(q).holders.Keys == Last(run).holders.Keys
  }

  lemma Extend(caps: map<Route, nat>, run: seq<State>, e: Event) returns (q: seq<State>)
    requires Run(caps, run) && Enabled(caps, Last(run), e) && !e.Arrive?
    ensures Continues(caps, run, q) && Last(q) == Apply(caps, Last(run), e)
  {
    q := run + [Apply(caps, Last(run), e)];
    forall k: nat | k < |q| - 1 ensures NextAt(caps, q, k) {
      if k < |run| - 1 {
        assert NextAt(caps, run, k) && q[k] == run[k] && q[k + 1] == run[k + 1];
      } else {
        assert q[k] == Last(run);
      }
    }
    NextBusy(caps, Last(run), e);
  }

  lemma ContinuesOn(caps: map<Route, nat>, a: seq<State>, b: seq<State>, c: seq<State>)
    requires Continues(caps, a, b) && Continues(caps, b, c)
    ensures Continues(caps, a, c)
  {}

  /** One step of stream `i`. */
  lemma StreamDoes(caps: map<Route, nat>, run: seq<State>, i: Id, e: StreamEvent) returns (q: seq<State>)
    requires Run(caps, run) && IsTunnel(Last(run), i) && StreamEnabled(Last(run).flags, i, Last(run).holders[i].s, e)
    ensures Continues(caps, run, q) && IsTunnel(Last(q), i)
    ensures var s := Last(run);
      var was := s.holders[i].s;
      var now := StreamStep(s.flags, Value(s.counters, Waiter(was.route)), i, was, e);
      Last(q).holders[i].s == now && Last(q).flags == LockAfter(s.flags, i, now, e)
  {
    q := Extend(caps, run, OfStream(i, e));
  }

  /** `put` ends. */
  lemma Unlock(caps: map<Route, nat>, run: seq<State>) returns (q: seq<State>)
    requires Run(caps, run)
    ensures Continues(caps, run, q) && Last(q).flags.lock.None?
  {
    q := run;
    RunWaits(caps, run, |run| - 1);
    if Last(run).flags.lock.Some? {
      var i := Last(run).flags.lock.value;
      if Last(q).holders[i].s.place.Checked? {
        q := StreamDoes(caps, q, i, PutRetired);
      }
      if Last(q).flags.lock.Some? {
        var q' := StreamDoes(caps, q, i, PutInsert);
        ContinuesOn(caps, run, q, q');
        q := q';
      }
    }
  }

  /** The watcher of a kept stream ends. */
  lemma EndWatch(caps: map<Route, nat>, run: seq<State>, i: Id) returns (q: seq<State>)
    requires Run(caps, run) && IsTunnel(Last(run), i) && Last(run).flags.lock.None?
    requires Last(run).holders[i].s.watch.Reading? || Last(run).holders[i].s.watch.Got?
    requires Last(run).holders[i].s.place.Idle? || Last(run).holders[i].s.place.TakenBy?
    ensures Continues(caps, run, q) && IsTunnel(Last(q), i) && Last(q).flags.lock.None?
    ensures var was, now := Last(run).holders[i].s, Last(q).holders[i].s;
      if was.place.Idle? then now.place.Out? else now.place == was.place && now.watch.Finished?
  {
    q := run;
    if Last(q).holders[i].s.watch.Reading? { q := StreamDoes(caps, q, i, WatchRead(false, false)); }
    var q' := StreamDoes(caps, q, i, WatchLock);
    ContinuesOn(caps, run, q, q');
    q := q';
  }

  /** A stream goes out of use. */
  lemma EndUseOf(caps: map<Route, nat>, run: seq<State>, i: Id) returns (q: seq<State>)
    requires Run(caps, run) && IsTunnel(Last(run), i) && Last(run).flags.lock.None?
    ensures Continues(caps, run, q) && IsTunnel(Last(q), i) && Last(q).flags.lock.None?
    ensures Last(q).holders[i].s.place.Out?
  {
    RunKeeps(caps, run, |run| - 1);
    q := run;
    var s := Last(run).holders[i].s;
    assert Isolated(s);
    match s.place
    case InUse(_) => q := StreamDoes(caps, run, i, EndUse);
    case Idle(_) => q := EndWatch(caps, run, i);
    case TakenBy(_) =>
      if !s.watch.Finished? { q := EndWatch(caps, run, i); }
      if Last(q).holders[i].s.place.TakenBy? {
        var q' := StreamDoes(caps, q, i, TakeCheck(false));
        ContinuesOn(caps, run, q, q');
        q := q';
      }
    case Out =>
  }

  /** A stream is closed. */
  lemma CloseOne(caps: map<Route, nat>, run: seq<State>, i: Id) returns (q: seq<State>)
    requires Run(caps, run) && IsTunnel(Last(run), i) && Last(run).flags.lock.None?
    ensures Continues(caps, run, q) && IsTunnel(Last(q), i) && Last(q).flags.lock.None?
    ensures Last(q).holders[i].s.life.Closed?
  {
    q := EndUseOf(caps, run, i);
    while !Last(q).holders[i].s.life.Closed?
      invariant Continues(caps, run, q) && IsTunnel(Last(q), i) && Last(q).flags.lock.None?
      invariant Last(q).holders[i].s.place.Out?
      decreases match Last(q).holders[i].s.life case Open => 3 case Aborted => 2 case Uncounted => 1 case Closed => 0
    {
      var e := match Last(q).holders[i].s.life
        case Open => CloseBegin case Aborted => CloseCount case Uncounted => CloseSlot case Closed => CloseSlot;
      var q' := StreamDoes(caps, q, i, e);
      ContinuesOn(caps, run, q, q');
      q := q';
    }
  }

  /** All streams are closed. */
  ghost predicate Quiet(s: State) {
    s.flags.lock.None? && forall i <- s.holders :: IsTunnel(s, i) ==> s.holders[i].s.life.Closed?
  }

  lemma QuietIsOut(caps: map<Route, nat>, run: seq<State>)
    requires Run(caps, run) && Quiet(Last(run))
    ensures forall i, r :: !IdleOn(Last(run), i, r)
  {
    RunKeeps(caps, run, |run| - 1);
    var s := Last(run);
    forall i | IsTunnel(s, i) ensures s.holders[i].s.place.Out? { assert Isolated(s.holders[i].s); }
  }

  /** The next step of a handler that is to end. */
  function Towards(p: Phase): TaskEvent {
    match p
    case Asking => FirstTry
    case Full => CountIn
    case Closing(_) => RetryAfter
    case Dry => GiveUp
    case Lucky => CountOut
    case Unlucky => CountOut
    case Serving => Refuse
    case Trying(_) => Fail
    case Holding(_) => HangUp
    case Ending => Release
    case Evicting => GiveUp
    case Gone => Release
  }

  function Steps(p: Phase): nat {
    match p
    case Asking => 8 case Full => 7 case Closing(_) => 6 case Evicting => 5 case Dry => 4 case Lucky => 3
    case Unlucky => 1 case Trying(_) => 3 case Serving => 2 case Holding(_) => 2 case Ending => 1 case Gone => 0
  }

  lemma TowardsEnd(caps: map<Route, nat>, c: Counters, who: Who, p: Phase)
    requires !p.Evicting? && !p.Gone?
    ensures TaskEnabled(caps, c, who, p, Towards(p))
    ensures Steps(TaskStep(caps, c, who, p, Towards(p)).0) < Steps(p)
  {}

  lemma TaskDoes(caps: map<Route, nat>, run: seq<State>, i: Id, t: TaskEvent) returns (q: seq<State>)
    requires Run(caps, run) && Quiet(Last(run)) && Enabled(caps, Last(run), OfTask(i, t))
    ensures Continues(caps, run, q) && Quiet(Last(q)) && IsTask(Last(q), i)
    ensures var s := Last(run);
      Last(q).holders[i].phase == TaskStep(caps, s.counters, s.holders[i].who, s.holders[i].phase, t).0
  {
    q := Extend(caps, run, OfTask(i, t));
  }

  /** One step of a handler that is to end. */
  lemma HandlerDoes(caps: map<Route, nat>, run: seq<State>, i: Id) returns (q: seq<State>)
    requires Run(caps, run) && Quiet(Last(run)) && IsTask(Last(run), i) && !Last(run).holders[i].phase.Gone?
    ensures Continues(caps, run, q) && Quiet(Last(q)) && IsTask(Last(q), i)
    ensures Steps(Last(q).holders[i].phase) < Steps(Last(run).holders[i].phase)
  {
    var s := Last(run);
    var h := s.holders[i];
    if h.phase.Evicting? {
      QuietIsOut(caps, run);
      q := Extend(caps, run, EvictNone(i));
    } else {
      RunWaits(caps, run, |run| - 1);
      TowardsEnd(caps, s.counters, h.who, h.phase);
      q := TaskDoes(caps, run, i, Towards(h.phase));
    }
  }

  /** A handler ends. */
  lemma EndOne(caps: map<Route, nat>, run: seq<State>, i: Id) returns (q: seq<State>)
    requires Run(caps, run) && Quiet(Last(run)) && IsTask(Last(run), i)
    ensures Continues(caps, run, q) && Quiet(Last(q)) && IsTask(Last(q), i) && Last(q).holders[i].phase.Gone?
  {
    q := run;
    while !Last(q).holders[i].phase.Gone?
      invariant Continues(caps, run, q) && Quiet(Last(q)) && IsTask(Last(q), i)
      decreases Steps(Last(q).holders[i].phase)
    {
      var q' := HandlerDoes(caps, q, i);
      ContinuesOn(caps, run, q, q');
      q := q';
    }
  }

  /** One more holder is done. */
  lemma OneFewer(caps: map<Route, nat>, run: seq<State>) returns (q: seq<State>)
    requires Run(caps, run) && Last(run).flags.lock.None? && Busy(Last(run)) != {}
    ensures Continues(caps, run, q) && Last(q).flags.lock.None? && Busy(Last(q)) < Busy(Last(run))
  {
    var s := Last(run);
    if i :| i in Busy(s) && s.holders[i].Tunnel? {
      q := CloseOne(caps, run, i);
      assert i !in Busy(Last(q));
    } else {
      var i :| i in Busy(s);
      forall j <- s.holders | IsTunnel(s, j) ensures s.holders[j].s.life.Closed? { assert j !in Busy(s); }
      q := EndOne(caps, run, i);
      assert i !in Busy(Last(q));
    }
  }

  lemma {:induction false} AllDone(caps: map<Route, nat>, run: seq<State>) returns (q: seq<State>)
    requires Run(caps, run) && Last(run).flags.lock.None?
    ensures Continues(caps, run, q) && Busy(Last(q)) == {}
    decreases |Busy(Last(run))|
  {
    q := run;
    if Busy(Last(run)) != {} {
      var one := OneFewer(caps, run);
      Fewer(Busy(Last(one)), Busy(Last(run)));
      q := AllDone(caps, one);
      ContinuesOn(caps, run, one, q);
    }
  }

  lemma Fewer(a: set<Id>, b: set<Id>)
    requires a < b
    ensures |a| < |b|
  {
    assert b == a + (b - a) && b - a != {};
  }

  /** Nothing leaks and nothing gets stuck: every run can be continued, with nobody new coming, until every handler has
      ended, every stream is closed and every slot, reservation and waiter's count is given back. */
  lemma WindsDown(caps: map<Route, nat>, run: seq<State>) returns (q: seq<State>)
    requires Run(caps, run)
    ensures Run(caps, q) && run <= q && Last(q).holders.Keys == Last(run).holders.Keys
    ensures forall i <- Last(q).holders :: Ended(Last(q).holders[i])
    ensures forall key: Key :: Value(Last(q).counters, key) == 0
  {
    var free := Unlock(caps, run);
    q := AllDone(caps, free);
    ContinuesOn(caps, run, free, q);
    RunKeeps(caps, q, |q| - 1);
    var s := Last(q);
    forall i <- s.holders ensures Ended(s.holders[i]) { assert i !in Busy(s); }
    forall key: Key ensures Value(s.counters, key) == 0 {
      assert Keeping(s.holders, key) == {};
      assert Value(s.counters, key) == Count(s.holders, key);
    }
  }
}

/** What the runs of `Streams` guarantee: conservation of slots and reservations, isolation, and no races with `put`. */
module StreamGuarantees {
  import opened Options
  import opened Streams

  ghost function TcpHandlers(hs: Holders, r: Route): set<Id> {
    set i | i in hs && hs[i].Task? && hs[i].who.Tcp? && Holds(hs[i], Slot(r))
  }
  ghost function H3Opens(hs: Holders, r: Route): set<Id> {
    set i | i in hs && hs[i].Task? && hs[i].who.H3? && Holds(hs[i], Slot(r))
  }
  ghost function Unclosed(hs: Holders, r: Route): set<Id> {
    set i | i in hs && hs[i].Tunnel? && hs[i].s.route == r && !hs[i].s.life.Closed?
  }

  /** In every state of every run, the slots taken of a route are those of TCP handlers past `tcpRouteSlot`, of HTTP/3
      opens and of unclosed tunnel streams, and no more than its cap. */
  lemma SlotsConserved(caps: map<Route, nat>, run: seq<State>, k: nat, r: Route)
    requires Run(caps, run) && k < |run|
    ensures var hs := run[k].holders;
      Value(run[k].counters, Slot(r)) == |TcpHandlers(hs, r)| + |H3Opens(hs, r)| + |Unclosed(hs, r)|
    ensures r in caps ==> Value(run[k].counters, Slot(r)) <= caps[r]
  {
    RunKeeps(caps, run, k);
    var hs := run[k].holders;
    assert Keeping(hs, Slot(r)) == TcpHandlers(hs, r) + H3Opens(hs, r) + Unclosed(hs, r);
    assert Value(run[k].counters, Slot(r)) == Count(hs, Slot(r));
  }

  /** Each slot is released once: its holder keeps it until it ends, an ended holder never holds anything again, and a
      release always finds a slot taken, so it never blocks. */
  lemma ReleasedOnce(caps: map<Route, nat>, run: seq<State>, k: nat, m: nat, i: Id, r: Route)
    requires Run(caps, run) && k <= m < |run| && i in run[k].holders
    requires Holds(run[k].holders[i], Slot(r)) || Ended(run[k].holders[i])
    ensures i in run[m].holders
    ensures Holds(run[k].holders[i], Slot(r)) ==> Value(run[k].counters, Slot(r)) > 0
    ensures Holds(run[m].holders[i], Slot(r)) || Ended(run[m].holders[i])
    ensures Ended(run[k].holders[i]) ==> Ended(run[m].holders[i])
    ensures Ended(run[m].holders[i]) ==> forall key: Key :: !Holds(run[m].holders[i], key)
  {
    RunKeeps(caps, run, k);
    RunOnward(caps, run, k, m);
    if Holds(run[k].holders[i], Slot(r)) { HolderCounts(run[k].holders, i, Slot(r)); }
  }

  ghost function Attempts(hs: Holders, a: Agent): set<Id> {
    set i | i in hs && hs[i].Task? && (hs[i].phase == Trying(a) || hs[i].phase == Holding(a))
  }
  ghost function OpenStreams(hs: Holders, a: Agent): set<Id> {
    set i | i in hs && hs[i].Tunnel? && hs[i].s.agent == a && (hs[i].s.life.Open? || hs[i].s.life.Aborted?)
  }

  /** A session's `active` is the number of attempts on it, in progress or in use by a handler, and of its open
      streams. */
  lemma ActiveConserved(caps: map<Route, nat>, run: seq<State>, k: nat, a: Agent)
    requires Run(caps, run) && k < |run|
    ensures var hs := run[k].holders; Value(run[k].counters, Active(a)) == |Attempts(hs, a)| + |OpenStreams(hs, a)|
  {
    RunKeeps(caps, run, k);
    var hs := run[k].holders;
    assert Keeping(hs, Active(a)) == Attempts(hs, a) + OpenStreams(hs, a);
    assert Value(run[k].counters, Active(a)) == Count(hs, Active(a));
  }

  /** A tunnel stream only ever carries requests of one connection, one host and one route; later ones follow the
      earlier. */
  lemma StreamIsolation(caps: map<Route, nat>, run: seq<State>, k: nat, m: nat, i: Id)
    requires Run(caps, run) && k <= m < |run| && IsTunnel(run[k], i)
    ensures IsTunnel(run[m], i)
    ensures var was, now := run[k].holders[i].s, run[m].holders[i].s;
      && was.carried != [] && was.carried <= now.carried
      && forall q <- now.carried :: q == Req(was.carried[0].conn, was.host, was.route)
  {
    RunKeeps(caps, run, k);
    RunOnward(caps, run, k, m);
    RunKeeps(caps, run, m);
    assert Isolated(run[k].holders[i].s) && Isolated(run[m].holders[i].s);
  }

  /** One at a time: a request is added to a stream only by `take`, when no request uses it, and then its watcher has
      finished and no watcher ever read a byte from it. */
  lemma OneAtATime(caps: map<Route, nat>, run: seq<State>, k: nat, i: Id)
    requires Run(caps, run) && k + 1 < |run| && IsTunnel(run[k], i)
    ensures IsTunnel(run[k + 1], i)
    ensures var was, now := run[k].holders[i].s, run[k + 1].holders[i].s;
      now.carried != was.carried ==>
        && was.place.TakenBy? && now.place == InUse(was.place.q) && now.carried == was.carried + [was.place.q]
        && was.watch == Finished(true) && was.eaten == 0 && now.eaten == 0 && was.life.Open?
  {
    RunKeeps(caps, run, k);
    assert NextAt(caps, run, k);
    var e: Event :| Enabled(caps, run[k], e) && run[k + 1] == Apply(caps, run[k], e);
    NextAdds(caps, run[k], e, i);
    assert Isolated(run[k].holders[i].s);
  }

  lemma NextAdds(caps: map<Route, nat>, s: State, e: Event, i: Id)
    requires Enabled(caps, s, e) && IsTunnel(s, i)
    ensures IsTunnel(Apply(caps, s, e), i)
    ensures var was, now := s.holders[i].s, Apply(caps, s, e).holders[i].s;
      now.carried != was.carried ==>
        && was.place.TakenBy? && was.watch == Finished(true)
        && now == was.(place := InUse(was.place.q), carried := was.carried + [was.place.q])
  {}

  /** Once `closeAgent` has run for a retired session, none of its streams is ever in the pool again. */
  lemma RetiredKeptOut(caps: map<Route, nat>, run: seq<State>, k: nat, m: nat, a: Agent, i: Id)
    requires Run(caps, run) && k <= m < |run| && a in run[k].flags.swept
    requires IsTunnel(run[m], i) && run[m].holders[i].s.agent == a
    ensures !run[m].holders[i].s.place.Idle?
  {
    RunOnward(caps, run, k, m);
    RunKeeps(caps, run, m);
  }

  /** While a counted waiter waits after a failed `evictRoute`, no stream of its route is in the pool. */
  lemma WaiterFindsNone(caps: map<Route, nat>, run: seq<State>, k: nat, i: Id, v: Id)
    requires Run(caps, run) && k < |run| && IsTask(run[k], i)
    requires run[k].holders[i].phase.Dry? || run[k].holders[i].phase.Unlucky?
    ensures !IdleOn(run[k], v, run[k].holders[i].who.Route())
  {
    RunKeeps(caps, run, k);
    assert Starved(run[k].holders[i], run[k].holders[i].who.Route());
  }

  /** Nothing is in the pool after shutdown, and nothing of a connection that ended. */
  lemma ClosedIsEmpty(caps: map<Route, nat>, run: seq<State>, k: nat, i: Id)
    requires Run(caps, run) && k < |run| && IsTunnel(run[k], i) && run[k].holders[i].s.place.Idle?
    ensures !run[k].flags.shut && run[k].holders[i].s.place.conn !in run[k].flags.ended
  {
    RunKeeps(caps, run, k);
  }

  // ---- How a handler comes by its slot ----

  ghost predicate RouteFull(caps: map<Route, nat>, s: State, r: Route) {
    r in caps && Value(s.counters, Slot(r)) >= caps[r]
  }

  ghost predicate NoneIdle(s: State, r: Route) { forall v <- s.holders :: !IdleOn(s, v, r) }

  /** What one step can do to a handler's phase, and what it takes: a handler that asks gets a slot exactly if one is
      free; only one that found the route full is counted as a waiter; it closes a kept stream of its route as long
      as there is one, tries again once that is closed, and gets a slot exactly if one is free then; only an HTTP/3
      request waits on; and a slot is given up only after the request was refused or its stream ended. */
  ghost predicate Moves(caps: map<Route, nat>, s: State, who: Who, p: Phase, p': Phase) {
    var r := who.Route();
    match p
    case Asking => p' == if RouteFull(caps, s, r) then Full else Serving
    case Full => p' == Evicting
    case Evicting => if NoneIdle(s, r) then p' == Dry else p'.Closing? && IdleOn(s, p'.v, r)
    case Closing(v) => p' == (if RouteFull(caps, s, r) then Evicting else Lucky) && Closed(s, v)
    case Dry => p' == Unlucky || (p' == Lucky && who.H3? && !RouteFull(caps, s, r))
    case Lucky => p' == Serving
    case Unlucky => p' == Gone
    case Serving => p' == Gone || p'.Trying?
    case Trying(a) => p' == Serving || p' == Holding(a)
    case Holding(_) => p' == Ending
    case Ending => p' == Gone
    case Gone => false
  }

  ghost predicate Closed(s: State, v: Id) { IsTunnel(s, v) && s.holders[v].s.life.Closed? }

  lemma NextMoves(caps: map<Route, nat>, s: State, e: Event, i: Id)
    requires Enabled(caps, s, e) && IsTask(s, i)
    ensures var s' := Apply(caps, s, e);
      && i in s'.holders
      && (s'.holders[i].Task? ==> s'.holders[i].who == s.holders[i].who)
      && (s'.holders[i].Task? && s'.holders[i].phase != s.holders[i].phase ==>
            Moves(caps, s, s.holders[i].who, s.holders[i].phase, s'.holders[i].phase))
      && (s'.holders[i].Tunnel? ==> s.holders[i].who.H3? && s.holders[i].phase.Holding?)
  {
    if e.OfTask? && e.i == i { TaskMoves(caps, s, e.t, i); }
    if e.EvictOne? && e.i == i { assert IdleOn(s, e.v, s.holders[i].who.Route()); }
  }

  lemma TaskMoves(caps: map<Route, nat>, s: State, t: TaskEvent, i: Id)
    requires Enabled(caps, s, OfTask(i, t))
    ensures var h := s.holders[i];
      Moves(caps, s, h.who, h.phase, TaskStep(caps, s.counters, h.who, h.phase, t).0)
  {}

  /** `NextMoves` at any step of any run. */
  lemma HandlerMoves(caps: map<Route, nat>, run: seq<State>, k: nat, i: Id)
    requires Run(caps, run) && k + 1 < |run| && IsTask(run[k], i)
    ensures i in run[k + 1].holders
    ensures var h, h' := run[k].holders[i], run[k + 1].holders[i];
      if h'.Tunnel? then h.who.H3? && h.phase.Holding?
      else h'.who == h.who && (h'.phase == h.phase || Moves(caps, run[k], h.who, h.phase, h'.phase))
  {
    assert NextAt(caps, run, k);
    var e: Event :| Enabled(caps, run[k], e) && run[k + 1] == Apply(caps, run[k], e);
    NextMoves(caps, run[k], e, i);
  }

  // ---- Who is turned away ----

  ghost predicate InPhase(s: State, i: Id, who: Who, p: Phase) { i in s.holders && s.holders[i] == Task(who, p) }

  /** At some moment before `k` the handler asked and found its route full. */
  ghost predicate WasFull(caps: map<Route, nat>, run: seq<State>, k: nat, i: Id, who: Who)
    requires k <= |run|
  {
    exists t: nat :: t < k && InPhase(run[t], i, who, Asking) && RouteFull(caps, run[t], who.Route())
  }

  /** At some moment before `k` it looked for a kept stream of its route, and there was none. */
  ghost predicate FoundNone(run: seq<State>, k: nat, i: Id, who: Who)
    requires k <= |run|
  {
    exists t: nat :: t < k && InPhase(run[t], i, who, Evicting) && NoneIdle(run[t], who.Route())
  }

  ghost predicate HadSlot(run: seq<State>, k: nat, i: Id, r: Route)
    requires k <= |run|
  {
    exists t: nat :: t < k && i in run[t].holders && Holds(run[t].holders[i], Slot(r))
  }

  ghost predicate Explained(caps: map<Route, nat>, run: seq<State>, k: nat, i: Id, who: Who, p: Phase)
    requires k <= |run|
  {
    && (p.Full? || p.Evicting? || p.Closing? || p.Dry? || p.Unlucky? ==> WasFull(caps, run, k, i, who))
    && (p.Dry? || p.Unlucky? ==> FoundNone(run, k, i, who))
    && (p.Gone? ==> HadSlot(run, k, i, who.Route()) || (WasFull(caps, run, k, i, who) && FoundNone(run, k, i, who)))
  }

  lemma ExplainedNext(caps: map<Route, nat>, run: seq<State>, k: nat, i: Id, who: Who, p: Phase, p': Phase)
    requires k < |run| && Explained(caps, run, k, i, who, p) && InPhase(run[k], i, who, p)
    requires p' == p || Moves(caps, run[k], who, p, p')
    ensures Explained(caps, run, k + 1, i, who, p')
  {
    if WasFull(caps, run, k, i, who) {
      var t: nat :| t < k && InPhase(run[t], i, who, Asking) && RouteFull(caps, run[t], who.Route());
      assert t < k + 1;
    }
    if FoundNone(run, k, i, who) {
      var t: nat :| t < k && InPhase(run[t], i, who, Evicting) && NoneIdle(run[t], who.Route());
      assert t < k + 1;
    }
    if HadSlot(run, k, i, who.Route()) {
      var t: nat :| t < k && i in run[t].holders && Holds(run[t].holders[i], Slot(who.Route()));
      assert t < k + 1;
    }
    assert Holds(Task(who, p), Slot(who.Route())) ==> HadSlot(run, k + 1, i, who.Route());
  }

  lemma {:induction false} AllExplained(caps: map<Route, nat>, run: seq<State>, k: nat, i: Id)
    requires Run(caps, run) && k < |run| && IsTask(run[k], i)
    ensures Explained(caps, run, k, i, run[k].holders[i].who, run[k].holders[i].phase)
  {
    if k > 0 {
      assert NextAt(caps, run, k - 1);
      var e: Event :| Enabled(caps, run[k - 1], e) && run[k] == Apply(caps, run[k - 1], e);
      if i in run[k - 1].holders {
        StaysTask(caps, run[k - 1], e, i);
        AllExplained(caps, run, k - 1, i);
        NextMoves(caps, run[k - 1], e, i);
        var h := run[k - 1].holders[i];
        ExplainedNext(caps, run, k - 1, i, h.who, h.phase, run[k].holders[i].phase);
      } else {
        NewTask(caps, run[k - 1], e, i);
      }
    }
  }

  lemma StaysTask(caps: map<Route, nat>, s: State, e: Event, i: Id)
    requires Enabled(caps, s, e) && i in s.holders && IsTask(Apply(caps, s, e), i)
    ensures IsTask(s, i)
  {}

  lemma NewTask(caps: map<Route, nat>, s: State, e: Event, i: Id)
    requires Enabled(caps, s, e) && i !in s.holders && i in Apply(caps, s, e).holders
    ensures Apply(caps, s, e).holders[i].Task? && Apply(caps, s, e).holders[i].phase.Asking?
  {}

  /** A handler is turned away, ending without ever having had a slot, only if the route was full when it asked and
      later, while it was counted as a waiter, no stream of the route was kept. */
  lemma TurnedAway(caps: map<Route, nat>, run: seq<State>, k: nat, i: Id)
    requires Run(caps, run) && k < |run| && IsTask(run[k], i) && run[k].holders[i].phase.Gone?
    requires !HadSlot(run, k, i, run[k].holders[i].who.Route())
    ensures WasFull(caps, run, k, i, run[k].holders[i].who) && FoundNone(run, k, i, run[k].holders[i].who)
  {
    AllExplained(caps, run, k, i);
  }

  // ---- What put keeps ----

  /** `put` keeps the stream exactly if the pool and the connection are open, the connection's share is not used up,
      nobody waits for a slot of the route, and the agent is not retired when that is looked at; it then waits for a
      request of its own connection, watched. */
  lemma PutKeeps(f: Flags, f': Flags, f'': Flags, waiters: int, waiters': int, waiters'': int, i: Id, s: Stream,
                 full: bool)
    requires s.place.InUse? && f.lock.None? && f'.lock == Some(i) && f''.lock == Some(i)
    ensures var s1 := StreamStep(f, waiters, i, s, PutCheck(full));
      && (s1.place.Out? || s1.place.Checked?)
      && (s1.place.Checked? <==> !f.shut && s.place.q.conn !in f.ended && !full && waiters <= 0)
      && (s1.place.Checked? ==>
            var s2 := StreamStep(f', waiters', i, s1, PutRetired);
            && (s2.place.Out? || s2.place.Cleared?) && (s2.place.Cleared? <==> s.agent !in f'.retired)
            && (s2.place.Cleared? ==>
                  StreamStep(f'', waiters'', i, s2, PutInsert) == s.(place := Idle(s.place.q.conn), watch := Reading)))
  {}
}

/** Runs of `Replace`: why a replacement is refused, and one that is accepted and handed over. */
module ReplaceRuns {
  import opened Options
  import opened Replace

  // ---- Why a replacement is refused ----

  /** Another call holds `busy`, and a successful one stops the agent. */
  ghost predicate BusyExact(s: State) {
    && (s.busy ==> exists i <- s.calls :: s.calls[i].Busy())
    && (forall i <- s.calls :: s.calls[i].Succeeded? ==> s.stopping)
    && (forall i <- s.calls :: s.calls[i].Aborting? ==> s.stopping)
  }

  lemma StepBusyExact(s: State, i: Id, ok: bool)
    requires Inv(s) && BusyExact(s) && i in s.calls && !s.calls[i].Succeeded? && !s.calls[i].Refused?
    ensures BusyExact(Stepped(s, i, ok))
  {
    var s' := Stepped(s, i, ok);
    if s'.busy {
      if s'.calls[i].Busy() {
        assert i in s'.calls;
      } else {
        assert s.busy && !s.calls[i].Busy();
        var j :| j in s.calls && s.calls[j].Busy();
        assert j in s'.calls && s'.calls[j].Busy();
      }
    }
  }

  lemma NextBusyExact(s: State, e: Event)
    requires Inv(s) && BusyExact(s) && Enabled(s, e)
    ensures BusyExact(Apply(s, e))
  {
    if e.Step? {
      StepBusyExact(s, e.i, e.ok);
    } else {
      var s' := Apply(s, e);
      if s.busy {
        var j :| j in s.calls && s.calls[j].Busy();
        assert j in s'.calls && s'.calls[j].Busy();
      }
    }
  }

  lemma {:induction false} RunBusyExact(r: seq<State>, k: nat)
    requires Run(r) && k < |r|
    ensures Inv(r[k]) && BusyExact(r[k])
  {
    RunKeeps(r, k);
    if k > 0 {
      RunBusyExact(r, k - 1);
      assert NextAt(r, k - 1);
      var e: Event :| Enabled(r[k - 1], e) && r[k] == Apply(r[k - 1], e);
      NextBusyExact(r[k - 1], e);
    }
  }

  /** A call of `replace` fails only while the agent is stopping, or while another call is under way, or if its
      successor cannot be started or does not become ready. */
  lemma RefusedOnlyFor(r: seq<State>, k: nat, i: Id)
    requires Run(r) && k + 1 < |r| && i in r[k].calls && !r[k].calls[i].Refused?
    requires i in r[k + 1].calls && r[k + 1].calls[i].Refused?
    ensures || r[k].stopping
            || (exists j <- r[k].calls :: j != i && r[k].calls[j].Busy())
            || r[k].calls[i].Spawning? || r[k].calls[i].Waiting?
  {
    RunBusyExact(r, k);
    assert NextAt(r, k);
    var e: Event :| Enabled(r[k], e) && r[k + 1] == Apply(r[k], e);
    assert e.Step? && e.i == i;
  }

  // ---- When a replacement comes too late ----

  /** Where a call can still be accepted although the agent is stopping: it had looked before that began. */
  predicate Ahead(p: Phase) { p.Setting? || p.Set? || p.Succeeded? }

  /** A call that has not spawned its successor and will look at the context before it does. */
  predicate Early(s: State, i: Id) { i !in s.calls || s.calls[i].Checking? || s.calls[i].Refused? }

  ghost predicate TooLate(s: State, i: Id) {
    s.stopping && (i !in s.calls || !Ahead(s.calls[i]))
  }

  lemma NextTooLate(s: State, e: Event, i: Id)
    requires Enabled(s, e) && TooLate(s, i)
    ensures TooLate(Apply(s, e), i)
    ensures Early(s, i) ==> Early(Apply(s, e), i) && (i in Apply(s, e).spawned <==> i in s.spawned)
  {}

  /** Once the agent is stopping, a call that has not got past its second look is never accepted, and one that has not
      even had its first starts no successor. */
  lemma {:induction false} NotOnceStopping(r: seq<State>, k: nat, m: nat, i: Id)
    requires Run(r) && k <= m < |r| && TooLate(r[k], i)
    ensures i in r[m].calls ==> !r[m].calls[i].Accepted()
    ensures TooLate(r[m], i)
    ensures Early(r[k], i) ==> Early(r[m], i) && (i in r[m].spawned <==> i in r[k].spawned)
  {
    if k < m {
      NotOnceStopping(r, k, m - 1, i);
      assert NextAt(r, m - 1);
      var e: Event :| Enabled(r[m - 1], e) && r[m] == Apply(r[m - 1], e);
      NextTooLate(r[m - 1], e, i);
    }
  }

  // ---- A successor that has died ----

  /** It is dead, and the callback has not looked yet, or has seen it. */
  ghost predicate SeenDead(s: State, i: Id) {
    && i in s.dead && MainPid(i) !in s.acts && GoAhead(i) !in s.acts
    && s.hand != Notifying(i) && s.hand != Going(i)
  }

  lemma NextSeenDead(s: State, e: Event, i: Id)
    requires Enabled(s, e) && SeenDead(s, i)
    ensures SeenDead(Apply(s, e), i)
  {}

  /** A successor that has died before the callback looked at it is never announced nor given the go-ahead. */
  lemma {:induction false} DeadNotAnnounced(r: seq<State>, k: nat, m: nat, i: Id)
    requires Run(r) && k <= m < |r| && i in r[k].dead && (r[k].hand.NotYet? || r[k].hand == Looking(i))
    ensures MainPid(i) !in r[m].acts && GoAhead(i) !in r[m].acts && SeenDead(r[m], i)
  {
    if k == m {
      RunKeeps(r, k);
    } else {
      DeadNotAnnounced(r, k, m - 1, i);
      assert NextAt(r, m - 1);
      var e: Event :| Enabled(r[m - 1], e) && r[m] == Apply(r[m - 1], e);
      NextSeenDead(r[m - 1], e, i);
    }
  }

  // ---- The drain request ----

  /** The edge is asked to drain only with time for it; without, or without a session, the agent retires at once. */
  ghost predicate AskedInTime(p: Proc) {
    && (p.shut.Requesting? || p.shut == Retiring(ToBacklog) || p.shut == ShutCalls(ToBacklog) || p.shut.Backlog? ==>
          p.v2 && p.budget.Long?)
    && (p.shut == Retiring(ToDrain) || p.shut == ShutCalls(ToDrain) ==> p.v2 && (!p.budget.Long? || !p.open))
    && (p.shut == Retiring(ToEnd) || p.shut == ShutCalls(ToEnd) ==> !p.v2)
  }

  lemma NextAskedInTime(s: State, e: Event)
    requires Enabled(s, e) && AskedInTime(s.proc)
    ensures AskedInTime(Apply(s, e).proc) && Apply(s, e).proc.budget == s.proc.budget
  {
    if e.MainStep? { MainAskedInTime(s, e.ok, e.v2); }
    if e.ShutStep? { ShutAskedInTime(s, e.stop); }
  }

  lemma MainAskedInTime(s: State, ok: bool, v2: bool)
    requires AskedInTime(s.proc)
    ensures AskedInTime(MainNext(s, ok, v2)) && MainNext(s, ok, v2).budget == s.proc.budget
  {}

  lemma ShutAskedInTime(s: State, stop: bool)
    requires AskedInTime(s.proc)
    ensures AskedInTime(ShutNext(s, stop)) && ShutNext(s, stop).budget == s.proc.budget
  {}

  /** In every state: the edge has been asked to drain, or is being, only by an agent that has the time; an agent
      retires without having asked only if it has not, or the session is gone, or the edge is an older one. */
  lemma {:induction false} DrainOnlyInTime(r: seq<State>, k: nat)
    requires Run(r) && k < |r|
    ensures AskedInTime(r[k].proc) && r[k].proc.budget == r[0].proc.budget
  {
    if k > 0 {
      DrainOnlyInTime(r, k - 1);
      assert NextAt(r, k - 1);
      var e: Event :| Enabled(r[k - 1], e) && r[k] == Apply(r[k - 1], e);
      NextAskedInTime(r[k - 1], e);
    }
  }

  // ---- A replacement ----

  ghost predicate Leads(r: seq<State>, s: State, s': State) {
    r != [] && r[0] == s && r[|r| - 1] == s' && forall k: nat :: k < |r| - 1 ==> NextAt(r, k)
  }

  lemma LeadsOn(r: seq<State>, s: State, s': State, e: Event) returns (q: seq<State>, t: State)
    requires Leads(r, s, s') && Enabled(s', e)
    ensures t == Apply(s', e) && Leads(q, s, t) && q == r + [t]
  {
    t := Apply(s', e);
    q := r + [t];
    forall k: nat | k < |q| - 1 ensures NextAt(q, k) {
      if k < |r| - 1 {
        assert NextAt(r, k) && q[k] == r[k] && q[k + 1] == r[k + 1];
      } else {
        assert q[k] == s' && q[k + 1] == t;
      }
    }
  }

  /** A connected agent, and how far its one replacement has come. */
  function Serving(p: Phase): State {
    Start(Long).(calls := map[0 := p], proc := Proc(Accepting, Selecting, true, true, Long))
  }

  lemma Connects() returns (r: seq<State>)
    ensures Leads(r, Start(Long), Serving(Checking))
  {
    var s := Start(Long);
    r := [s];
    r, s := LeadsOn(r, Start(Long), s, MainStep(true, true));
    r, s := LeadsOn(r, Start(Long), s, MainStep(true, true));
    r, s := LeadsOn(r, Start(Long), s, Signal(0));
    assert s == Serving(Checking);
  }

  /** The successor is prepared. */
  function Prepared(p: Phase): State { Serving(p).(busy := true, spawned := [0]) }

  lemma Prepares(r0: seq<State>) returns (r: seq<State>)
    requires Leads(r0, Start(Long), Serving(Checking))
    ensures Leads(r, Start(Long), Prepared(Rechecking))
  {
    var s := Serving(Checking);
    r, s := LeadsOn(r0, Start(Long), s, Step(0, true));
    r, s := LeadsOn(r, Start(Long), s, Step(0, true));
    r, s := LeadsOn(r, Start(Long), s, Step(0, true));
    r, s := LeadsOn(r, Start(Long), s, Step(0, true));
    assert s.calls == map[0 := Rechecking] && s == Prepared(Rechecking);
  }

  /** Its callback is accepted and the shutdown begun; where the shutdown and the hand-over are. */
  function Leaving(shut: Shut, hand: Hand, acts: seq<Act>): State {
    Prepared(Succeeded).(onRetired := Some(0), stopping := true, hand := hand, acts := acts,
                         proc := Proc(Accepting, shut, true, true, Long))
  }

  lemma Accepts(r0: seq<State>) returns (r: seq<State>)
    requires Leads(r0, Start(Long), Prepared(Rechecking))
    ensures Leads(r, Start(Long), Leaving(Selecting, NotYet, []))
  {
    var s := Prepared(Rechecking);
    r, s := LeadsOn(r0, Start(Long), s, Step(0, true));
    r, s := LeadsOn(r, Start(Long), s, Step(0, true));
    r, s := LeadsOn(r, Start(Long), s, Step(0, true));
    assert s.calls == map[0 := Succeeded] && s == Leaving(Selecting, NotYet, []);
  }

  lemma Retires(r0: seq<State>) returns (r: seq<State>)
    requires Leads(r0, Start(Long), Leaving(Selecting, NotYet, []))
    ensures Leads(r, Start(Long), Leaving(ShutCalls(ToBacklog), Looking(0), [Ran(0)]))
  {
    var s := Leaving(Selecting, NotYet, []);
    r, s := LeadsOn(r0, Start(Long), s, ShutStep(true));
    r, s := LeadsOn(r, Start(Long), s, ShutStep(true));
    r, s := LeadsOn(r, Start(Long), s, ShutStep(true));
    r, s := LeadsOn(r, Start(Long), s, ShutStep(true));
    assert s == Leaving(ShutCalls(ToBacklog), Looking(0), [Ran(0)]);
  }

  lemma HandsOver(r0: seq<State>) returns (r: seq<State>)
    requires Leads(r0, Start(Long), Leaving(ShutCalls(ToBacklog), Looking(0), [Ran(0)]))
    ensures Leads(r, Start(Long), Leaving(ShutCalls(ToBacklog), Over, [Ran(0), MainPid(0), GoAhead(0)]))
  {
    var s := Leaving(ShutCalls(ToBacklog), Looking(0), [Ran(0)]);
    r, s := LeadsOn(r0, Start(Long), s, HandStep(true));
    r, s := LeadsOn(r, Start(Long), s, HandStep(true));
    r, s := LeadsOn(r, Start(Long), s, HandStep(true));
    assert s == Leaving(ShutCalls(ToBacklog), Over, [Ran(0), MainPid(0), GoAhead(0)]);
  }

  function Ending(p: Proc): State { Leaving(Finished, Over, [Ran(0), MainPid(0), GoAhead(0)]).(proc := p) }

  lemma Drains(r0: seq<State>) returns (r: seq<State>)
    requires Leads(r0, Start(Long), Leaving(ShutCalls(ToBacklog), Over, [Ran(0), MainPid(0), GoAhead(0)]))
    ensures Leads(r, Start(Long), Ending(Proc(Joining, Finished, false, true, Long)))
  {
    var s := Leaving(ShutCalls(ToBacklog), Over, [Ran(0), MainPid(0), GoAhead(0)]);
    r, s := LeadsOn(r0, Start(Long), s, ShutStep(true));
    r, s := LeadsOn(r, Start(Long), s, MainStep(true, true));
    r, s := LeadsOn(r, Start(Long), s, ShutStep(true));
    r, s := LeadsOn(r, Start(Long), s, ShutStep(true));
    assert s == Ending(Proc(Joining, Finished, false, true, Long));
  }

  lemma Exits(r0: seq<State>) returns (r: seq<State>)
    requires Leads(r0, Start(Long), Ending(Proc(Joining, Finished, false, true, Long)))
    ensures Leads(r, Start(Long), Ending(Proc(Returned, Finished, false, true, Long)).(exit := Some(false)))
  {
    var s := Ending(Proc(Joining, Finished, false, true, Long));
    r, s := LeadsOn(r0, Start(Long), s, MainStep(true, true));
    r, s := LeadsOn(r, Start(Long), s, MainStep(true, true));
    r, s := LeadsOn(r, Start(Long), s, MainStep(true, true));
    r, s := LeadsOn(r, Start(Long), s, Exit);
    assert s == Ending(Proc(Returned, Finished, false, true, Long)).(exit := Some(false));
  }

  /** A run in which a replacement is accepted, systemd is told, the successor gets its go-ahead, and the old process
      then exits with success. */
  lemma HandedOver() returns (r: seq<State>)
    ensures Run(r)
    ensures var last := r[|r| - 1];
      && last.exit == Some(false) && last.acts == [Ran(0), MainPid(0), GoAhead(0)]
      && last.calls == map[0 := Succeeded] && last.spawned == [0]
  {
    r := Connects();
    r := Prepares(r);
    r := Accepts(r);
    r := Retires(r);
    r := HandsOver(r);
    r := Drains(r);
    r := Exits(r);
  }

  // ---- An agent that is stopping exits ----

  function MainRank(m: Main): nat {
    match m
    case Accepting => 9 case Joining => 8 case Connecting => 7 case Back => 6 case Backoff => 5 case Top => 5
    case Leaving => 4 case MainCalls => 3 case Returned => 2
  }

  function ShutRank(x: Shut): nat {
    match x
    case Selecting => 9 case Begun => 8 case Requesting => 7 case Backlog => 4 case Draining => 3
    case Retiring(next) => (match next case ToBacklog => 6 case ToDrain => 5 case ToEnd => 2)
    case ShutCalls(next) => (match next case ToBacklog => 5 case ToDrain => 4 case ToEnd => 1)
    case Finished => 0 case NoSession => 0
  }

  function HandRank(h: Hand): nat {
    match h case NotYet => 4 case Looking(_) => 3 case Notifying(_) => 2 case Going(_) => 1 case Over => 0
  }

  /** The next step on the way to the exit, with everything going wrong that can. */
  function Towards(s: State): Event {
    if Running(s.hand) then HandStep(false)
    else if s.proc.main.Returned? then Exit
    else if s.proc.main.Joining? && !s.proc.shut.Finished? then ShutStep(true)
    else MainStep(false, true)
  }

  ghost predicate Closer(s: State, s': State) {
    || s'.exit.Some?
    || MainRank(s'.proc.main) < MainRank(s.proc.main)
    || (s'.proc.main == s.proc.main
        && (ShutRank(s'.proc.shut) < ShutRank(s.proc.shut)
            || (s'.proc.shut == s.proc.shut && HandRank(s'.hand) < HandRank(s.hand))))
  }

  lemma StepCloser(s: State)
    requires Joined(s.proc, s.hand, s.stopping) && s.stopping && s.exit.None?
    ensures Enabled(s, Towards(s)) && Closer(s, Apply(s, Towards(s))) && Apply(s, Towards(s)).stopping
  {}

  /** From any state, an agent that is stopping can come to its exit, whatever fails on the way. */
  lemma {:induction false} ExitsInTheEnd(r: seq<State>) returns (q: seq<State>)
    requires Run(r) && r[|r| - 1].stopping
    ensures Run(q) && r <= q && q[|q| - 1].exit.Some?
    decreases r[|r| - 1].exit.None?, MainRank(r[|r| - 1].proc.main), ShutRank(r[|r| - 1].proc.shut),
              HandRank(r[|r| - 1].hand)
  {
    q := r;
    var s := r[|r| - 1];
    if s.exit.None? {
      RunKeeps(r, |r| - 1);
      StepCloser(s);
      assert Leads(r, r[0], s);
      var one, t := LeadsOn(r, r[0], s, Towards(s));
      q := ExitsInTheEnd(one);
    }
  }
}

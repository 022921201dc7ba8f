/** What every run of `Handoff` can still do: a drain request is always answered, and GoAway ends the arrivals. */
module HandoffProgress {
  import opened Handoff

  // ---- Drain requests are answered ----

  function Last(r: seq<State>): State
    requires r != []
  {
    r[|r| - 1]
  }

  lemma Extend(r: seq<State>, e: Event) returns (q: seq<State>)
    requires Run(r) && Enabled(Last(r), e)
    ensures q == r + [Apply(Last(r), e)] && Run(q) && r <= q
  {
    q := r + [Apply(Last(r), e)];
    forall k: nat | k + 1 < |q| ensures NextAt(q, k) {
      if k + 1 < |r| {
        assert NextAt(r, k) && q[k] == r[k] && q[k + 1] == r[k + 1];
      } else {
        assert q[k] == Last(r);
      }
    }
  }

  /** An open that may still be used. */
  ghost predicate SomeOpening(x: Edge) { exists i <- x.opens :: x.opens[i].Opening? }

  lemma NoneOpening(x: Edge)
    requires Counts(x)
    ensures SomeOpening(x) <==> x.conn.LiveOpens() != 0
  {
    var all, stuck := Counted(x), StuckOpens(x);
    assert stuck <= all;
    assert |all - stuck| == |all| - |stuck|;
    if SomeOpening(x) {
      var i :| i in x.opens && x.opens[i].Opening?;
      assert i in all - stuck;
    } else {
      assert all - stuck == {};
    }
  }

  lemma EdgeMarksClean(x: Edge, w: Wire, e: EdgeEvent)
    requires Counts(x) && EdgeEnabled(x, w, e)
    ensures var d, d' := x.drain, EdgeStep(x, w, e).drain;
      && (d'.Ready? && !d.Ready? ==> (d'.clean <==> e != DrainTimeout))
      && (e == DrainCheck ==> if SomeOpening(x) then d'.Waiting? else d' == Ready(true))
  {
    NoneOpening(x);
  }

  lemma WireMarksNone(s: State, e: WireEvent)
    requires WireEnabled(s, e)
    ensures WireStep(s, e).edge.drain == s.edge.drain || WireStep(s, e).edge.drain.NoDrain?
  {}

  /** The acknowledgement is ready when no open is in flight that may be used, or none any more, or when the wait for
      them timed out; and it is marked clean exactly but in the last case. */
  lemma MarkedClean(r: seq<State>, e: Event)
    requires Run(r) && Enabled(Last(r), e)
    ensures var d, d' := Last(r).edge.drain, Apply(Last(r), e).edge.drain;
      && (d'.Ready? && !d.Ready? ==> (d'.clean <==> e != OfEdge(DrainTimeout)))
      && (e == OfEdge(DrainCheck) ==> if SomeOpening(Last(r).edge) then d'.Waiting? else d' == Ready(true))
  {
    RunKeeps(r, |r| - 1);
    if e.OfEdge? { EdgeMarksClean(Last(r).edge, Last(r).wire, e.x); }
    if e.OfWire? { WireMarksNone(Last(r), e.w); }
  }

  ghost predicate Answers(r: seq<State>, q: seq<State>)
    requires r != []
  {
    && Run(q) && r <= q && |q| <= |r| + 3 && Last(q).edge.drain.NoDrain?
    && var sent := Last(r).wire.sent;
       Last(q).wire.sent == sent + [Ack(true)] || Last(q).wire.sent == sent + [Ack(false)]
  }

  lemma AnswersReady(r: seq<State>) returns (q: seq<State>)
    requires Run(r) && Last(r).edge.drain.Ready?
    ensures Run(q) && r <= q && |q| == |r| + 1
    ensures Last(q).edge.drain.NoDrain? && Last(q).wire.sent == Last(r).wire.sent + [Ack(Last(r).edge.drain.clean)]
  {
    q := Extend(r, OfWire(WriteAck));
  }

  /** A drain request that is being served is answered, from any state: at most two more steps and the
      acknowledgement is written, whatever the opens in flight do, and with what was decided about it. */
  lemma DrainAnswered(r: seq<State>) returns (q: seq<State>)
    requires Run(r) && !Last(r).edge.drain.NoDrain?
    ensures Answers(r, q)
  {
    q := r;
    if Last(q).edge.drain.Retiring? { q := Extend(q, OfEdge(DrainCheck)); }
    if Last(q).edge.drain.Waiting? { q := Extend(q, OfEdge(DrainTimeout)); }
    q := AnswersReady(q);
  }

  /** And one that has been heard is served, if no other is. */
  lemma DrainServed(r: seq<State>, p: nat) returns (q: seq<State>)
    requires Run(r) && Last(r).edge.drain.NoDrain?
    requires p < Last(r).wire.heard && p < |Last(r).wire.back| && Last(r).wire.back[p] == DrainRequest
    ensures Run(q) && r <= q && |q| == |r| + 1 && Last(q).edge.drain.Retiring? && Last(q).edge.conn.retired
  {
    q := Extend(r, OfEdge(DrainBegin));
  }

  // ---- GoAway ends the arrivals ----

  ghost predicate Away(a: Agent, a': Agent) {
    a'.goAway && (a'.queue == a.queue || (a.queue != [] && a'.queue == a.queue[1..]))
  }

  lemma AgentAway(a: Agent, w: Wire, e: AgentEvent)
    requires AgentEnabled(a, w, e) && a.goAway
    ensures Away(a, AgentStep(a, w, e))
  {}

  lemma WireAway(s: State, e: WireEvent)
    requires WireEnabled(s, e) && s.agent.goAway
    ensures Away(s.agent, WireStep(s, e).agent)
  {}

  lemma NextAway(s: State, e: Event)
    requires Enabled(s, e) && s.agent.goAway
    ensures Away(s.agent, Apply(s, e).agent)
  {
    if e.OfAgent? { AgentAway(s.agent, s.wire, e.a); }
    if e.OfWire? { WireAway(s, e.w); }
  }

  /** Once GoAway is sent no stream joins the accept queue: it only loses those at its head. */
  lemma {:induction false} GoAwayEndsArrivals(r: seq<State>, k: nat, m: nat) returns (n: nat)
    requires Run(r) && k <= m < |r| && r[k].agent.goAway
    ensures r[m].agent.goAway && n <= |r[k].agent.queue| && r[m].agent.queue == r[k].agent.queue[n..]
  {
    n := 0;
    if k < m {
      n := GoAwayEndsArrivals(r, k, m - 1);
      assert NextAt(r, m - 1);
      var e: Event :| Enabled(r[m - 1], e) && r[m] == Apply(r[m - 1], e);
      NextAway(r[m - 1], e);
      if r[m].agent.queue != r[m - 1].agent.queue { n := n + 1; }
    }
  }

  // ---- The agent's shutdown comes to its end ----

  lemma ExtendAgent(r: seq<State>, e: AgentEvent) returns (q: seq<State>)
    requires Run(r) && AgentEnabled(Last(r).agent, Last(r).wire, e)
    ensures Run(q) && r <= q && |q| == |r| + 1
    ensures Last(q) == Last(r).(agent := AgentStep(Last(r).agent, Last(r).wire, e))
  {
    q := Extend(r, OfAgent(e));
  }

  /** An agent that has asked for the drain comes to refuse new streams, whatever the edge answers. */
  lemma ShutdownEnds(r: seq<State>) returns (q: seq<State>)
    requires Run(r) && Last(r).agent.asked
    ensures Run(q) && r <= q && |q| <= |r| + 3 && Last(q).agent.goAway && Last(q).agent.draining
  {
    q := r;
    if Last(q).agent.acked.None? { q := ExtendAgent(q, AckTimeout); }
    q := ExtendAgent(q, GoAway);
    q := ExtendAgent(q, RefuseNew);
  }

  // ---- Everything is settled in the end ----

  /** The opens whose end is not decided. */
  ghost function Pending(x: Edge): set<Id> { set i | i in x.opens && (x.opens[i].Counted() || x.opens[i].Awaiting?) }

  lemma ExtendEdge(r: seq<State>, e: EdgeEvent) returns (q: seq<State>)
    requires Run(r) && EdgeEnabled(Last(r).edge, Last(r).wire, e)
    ensures Run(q) && r <= q && Last(q) == Last(r).(edge := EdgeStep(Last(r).edge, Last(r).wire, e))
  {
    q := Extend(r, OfEdge(e));
  }

  /** One open is decided: it fails, or is given up waiting for the accept byte. */
  lemma DecideOpen(r: seq<State>, i: Id) returns (q: seq<State>)
    requires Run(r) && i in Pending(Last(r).edge)
    ensures Run(q) && r <= q && Last(q).agent == Last(r).agent && Last(q).edge.drain == Last(r).edge.drain
    ensures Pending(Last(q).edge) == Pending(Last(r).edge) - {i}
  {
    if Last(r).edge.opens[i].Awaiting? { q := ExtendEdge(r, Drop(i)); } else { q := ExtendEdge(r, Complete(i, false)); }
  }

  lemma {:induction false} DecideOpens(r: seq<State>) returns (q: seq<State>)
    requires Run(r)
    ensures Run(q) && r <= q && Last(q).agent == Last(r).agent && Last(q).edge.drain == Last(r).edge.drain
    ensures Pending(Last(q).edge) == {}
    decreases |Pending(Last(r).edge)|
  {
    q := r;
    if i :| i in Pending(Last(r).edge) {
      var one := DecideOpen(r, i);
      q := DecideOpens(one);
    }
  }

  lemma {:induction false} EmptyQueue(r: seq<State>) returns (q: seq<State>)
    requires Run(r)
    ensures Run(q) && r <= q && Last(q).edge == Last(r).edge && Last(q).agent.queue == []
    decreases |Last(r).agent.queue|
  {
    q := r;
    if Last(r).agent.queue != [] {
      var one := ExtendAgent(r, Take);
      q := EmptyQueue(one);
    }
  }

  /** One stream in flight ends: its accept byte cannot be written, or its request is done. */
  lemma EndStream(r: seq<State>, i: Id) returns (q: seq<State>)
    requires Run(r) && i in InFlight(Last(r).agent)
    ensures Run(q) && r <= q && Last(q).edge == Last(r).edge && Last(q).agent.queue == Last(r).agent.queue
    ensures InFlight(Last(q).agent) == InFlight(Last(r).agent) - {i}
  {
    if Last(r).agent.taken[i].Serving? { q := ExtendAgent(r, FailAccept(i)); } else { q := ExtendAgent(r, Finish(i)); }
  }

  lemma {:induction false} EndStreams(r: seq<State>) returns (q: seq<State>)
    requires Run(r)
    ensures Run(q) && r <= q && Last(q).edge == Last(r).edge && Last(q).agent.queue == Last(r).agent.queue
    ensures InFlight(Last(q).agent) == {}
    decreases |InFlight(Last(r).agent)|
  {
    q := r;
    if i :| i in InFlight(Last(r).agent) {
      var one := EndStream(r, i);
      q := EndStreams(one);
    }
  }

  /** Nothing gets stuck: every run can be continued until no drain request is left unanswered, every open is decided
      and none is counted, the accept queue is empty and no stream is in flight. */
  lemma Settles(r: seq<State>) returns (q: seq<State>)
    requires Run(r)
    ensures Run(q) && r <= q
    ensures Last(q).edge.drain.NoDrain? && Last(q).edge.conn.opening == 0 && Last(q).edge.conn.stuck == 0
    ensures forall i <- Last(q).edge.opens :: Last(q).edge.opens[i].Sent? || Last(q).edge.opens[i].GivenUp()
    ensures Last(q).agent.queue == [] && Last(q).agent.inflight == 0
  {
    q := r;
    if !Last(q).edge.drain.NoDrain? { q := DrainAnswered(q); }
    q := DecideOpens(q);
    q := EmptyQueue(q);
    q := EndStreams(q);
    RunKeeps(q, |q| - 1);
    Settled(Last(q).edge);
  }

  lemma Settled(x: Edge)
    requires Counts(x) && Pending(x) == {}
    ensures x.conn.opening == 0 && x.conn.stuck == 0
    ensures forall i <- x.opens :: x.opens[i].Sent? || x.opens[i].GivenUp()
  {
    assert Counted(x) <= Pending(x) && StuckOpens(x) <= Pending(x);
    forall i <- x.opens ensures x.opens[i].Sent? || x.opens[i].GivenUp() { assert i !in Pending(x); }
  }
}

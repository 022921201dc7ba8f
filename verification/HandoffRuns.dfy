/** Runs of `Handoff`: a request that is served, and a stream that is left behind. */
module HandoffRuns {
  import opened AgentConns
  import opened Handoff
  import opened Options

  // ---- A stream left behind ----

  ghost predicate Leads(r: seq<State>, s: State, s': State) {
    r != [] && r[0] == s && r[|r| - 1] == s' && forall k: nat :: k + 1 < |r| ==> NextAt(r, k)
  }

  lemma LeadsOn(r: seq<State>, s: State, e: Event, s': State, t: State)
    requires Leads(r, s, s') && Enabled(s', e) && Apply(s', e) == t
    ensures Leads(r + [t], s, t)
  {
    var q := r + [t];
    forall k: nat | k + 1 < |q| ensures NextAt(q, k) {
      if k + 1 < |r| {
        assert NextAt(r, k) && q[k] == r[k] && q[k + 1] == r[k + 1];
      } else {
        assert q[k] == s' && q[k + 1] == t;
      }
    }
  }

  function Asked(asked: bool): Agent { Init(false).agent.(asked := asked) }

  /** An open whose stream is in use and has not reached the agent. */
  function InUse(retired: bool, drain: Drain): Edge { Edge(FRESH.(retired := retired), map[0 := Awaiting], drain) }
  function Written(sent: seq<Frame>, got: nat, back: seq<Back>, heard: nat): Wire {
    Wire(sent, map[0 := 0], map[], got, back, map[], heard)
  }

  /** The first open, before its opening frame is written and after. */
  function Opening1(w: Wire): State { State(Edge(FRESH.(opening := 1), map[0 := Opening], NoDrain), w, Asked(false)) }

  lemma FirstOpen(s0: State)
    requires s0 == Init(false)
    ensures Enabled(s0, OfEdge(Begin(0))) && Apply(s0, OfEdge(Begin(0))) == Opening1(s0.wire)
    ensures var s1 := Opening1(s0.wire);
      Enabled(s1, OfWire(WriteSyn(0))) && Apply(s1, OfWire(WriteSyn(0))) == Opening1(Written([Syn(0)], 0, [], 0))
  {}

  lemma FirstUse(s2: State)
    requires s2 == Opening1(Written([Syn(0)], 0, [], 0))
    ensures Enabled(s2, OfEdge(Complete(0, true)))
    ensures Apply(s2, OfEdge(Complete(0, true))) == State(InUse(false, NoDrain), s2.wire, Asked(false))
  {
    OnlyOpenCompletes(s2.edge, s2.wire);
  }

  lemma OnlyOpenCompletes(x: Edge, w: Wire)
    requires x.conn == FRESH.(opening := 1) && x.opens == map[0 := Opening] && x.drain.NoDrain? && 0 in w.synAt
    ensures EdgeEnabled(x, w, Complete(0, true)) && EdgeStep(x, w, Complete(0, true)) == InUse(false, NoDrain)
  {
    assert x.opens[0 := Awaiting] == map[0 := Awaiting];
    assert Completed(x.conn, false) == FRESH;
  }

  lemma PathToUse(s0: State) returns (r: seq<State>)
    requires s0 == Init(false)
    ensures Leads(r, s0, State(InUse(false, NoDrain), Written([Syn(0)], 0, [], 0), Asked(false)))
  {
    var s1, s2 := Opening1(s0.wire), Opening1(Written([Syn(0)], 0, [], 0));
    var s3 := State(InUse(false, NoDrain), s2.wire, Asked(false));
    FirstOpen(s0);
    FirstUse(s2);
    r := [s0];
    LeadsOn(r, s0, OfEdge(Begin(0)), s0, s1);
    LeadsOn(r + [s1], s0, OfWire(WriteSyn(0)), s1, s2);
    LeadsOn(r + [s1] + [s2], s0, OfEdge(Complete(0, true)), s2, s3);
    r := r + [s1] + [s2] + [s3];
  }

  lemma PathToAck(r0: seq<State>) returns (r: seq<State>)
    requires Leads(r0, Init(false), State(InUse(false, NoDrain), Written([Syn(0)], 0, [], 0), Asked(false)))
    ensures var w := Written([Syn(0), Ack(true)], 0, [DrainRequest], 1);
      Leads(r, Init(false), State(InUse(true, NoDrain), w, Asked(true)))
  {
    var i, w := Init(false), Written([Syn(0)], 0, [DrainRequest], 1);
    var s3 := State(InUse(false, NoDrain), Written([Syn(0)], 0, [], 0), Asked(false));
    var s4 := State(InUse(false, NoDrain), Written([Syn(0)], 0, [DrainRequest], 0), Asked(true));
    var s5 := State(InUse(false, NoDrain), w, Asked(true));
    var s6 := State(InUse(true, Retiring), w, Asked(true));
    var s7 := State(InUse(true, Ready(true)), w, Asked(true));
    var s8 := State(InUse(true, NoDrain), Written([Syn(0), Ack(true)], 0, [DrainRequest], 1), Asked(true));
    LeadsOn(r0, i, OfWire(Ask), s3, s4);
    LeadsOn(r0 + [s4], i, OfWire(Hear), s4, s5);
    assert w.back[0] == DrainRequest;
    LeadsOn(r0 + [s4] + [s5], i, OfEdge(DrainBegin), s5, s6);
    LeadsOn(r0 + [s4] + [s5] + [s6], i, OfEdge(DrainCheck), s6, s7);
    LeadsOn(r0 + [s4] + [s5] + [s6] + [s7], i, OfWire(WriteAck), s7, s8);
    r := r0 + [s4] + [s5] + [s6] + [s7] + [s8];
  }

  function Waiting0(acked: Option<bool>, goAway: bool, draining: bool): Agent {
    Asked(true).(acked := acked, ackAt := if acked.Some? then 1 else 0, goAway := goAway, draining := draining,
                 queue := [0], taken := map[0 := Queued])
  }

  /** A stream in use can be left in the queue after a clean acknowledgement: here the loop's timeout fires while one is
      waiting. `CleanHandoff` says exactly when, and `LeftQueuedUnserved` what becomes of it. */
  lemma LeftBehind() returns (r: seq<State>)
    ensures Run(r) && |r| > 0
    ensures var s := r[|r| - 1];
      && s.agent.acked == Some(true) && !s.agent.short && s.agent.draining
      && 0 in s.edge.opens && s.edge.opens[0].Used() && 0 in s.agent.taken && s.agent.taken[0].Queued?
  {
    var r0 := PathToUse(Init(false));
    r0 := PathToAck(r0);
    var i, x := Init(false), InUse(true, NoDrain);
    var w := Written([Syn(0), Ack(true)], 0, [DrainRequest], 1);
    var s8 := State(x, w, Asked(true));
    var s9 := State(x, w.(got := 1), Waiting0(None, false, false));
    var s10 := State(x, w.(got := 2), Waiting0(Some(true), false, false));
    var s11 := State(x, w.(got := 2), Waiting0(Some(true), true, false));
    var s12 := State(x, w.(got := 2), Waiting0(Some(true), true, true));
    LeadsOn(r0, i, OfWire(Deliver(false)), s8, s9);
    LeadsOn(r0 + [s9], i, OfWire(Deliver(false)), s9, s10);
    LeadsOn(r0 + [s9] + [s10], i, OfAgent(GoAway), s10, s11);
    LeadsOn(r0 + [s9] + [s10] + [s11], i, OfAgent(RefuseNew), s11, s12);
    r := r0 + [s9] + [s10] + [s11] + [s12];
  }

  // ---- A request served ----

  /** The edge has one stream, in state `o`. */
  function EdgeAt(o: Open): Edge { Edge(FRESH, map[0 := o], NoDrain) }

  function AgentAt(t: Taken, queue: seq<Id>, inflight: int, served: set<Id>): Agent {
    Asked(false).(taken := map[0 := t], queue := queue, inflight := inflight, served := served)
  }

  function WireAt(data: bool, got: nat, accepted: bool, heard: nat): Wire {
    Wire(if data then [Syn(0), Data(0)] else [Syn(0)], map[0 := 0], if data then map[0 := 1] else map[], got,
         if accepted then [AcceptByte(0)] else [], if accepted then map[0 := 0] else map[], heard)
  }

  lemma PathToAccept(r0: seq<State>) returns (r: seq<State>)
    requires Leads(r0, Init(false), State(EdgeAt(Awaiting), WireAt(false, 0, false, 0), Asked(false)))
    ensures Leads(r, Init(false), State(EdgeAt(Awaiting), WireAt(false, 1, true, 1), AgentAt(Accepted, [], 1, {})))
  {
    var i, x := Init(false), EdgeAt(Awaiting);
    var s3 := State(x, WireAt(false, 0, false, 0), Asked(false));
    var s4 := State(x, WireAt(false, 1, false, 0), AgentAt(Queued, [0], 0, {}));
    var s5 := State(x, WireAt(false, 1, false, 0), AgentAt(Serving, [], 1, {}));
    var s6 := State(x, WireAt(false, 1, true, 0), AgentAt(Accepted, [], 1, {}));
    var s7 := State(x, WireAt(false, 1, true, 1), AgentAt(Accepted, [], 1, {}));
    LeadsOn(r0, i, OfWire(Deliver(false)), s3, s4);
    LeadsOn(r0 + [s4], i, OfAgent(Take), s4, s5);
    LeadsOn(r0 + [s4] + [s5], i, OfWire(SendAccept(0)), s5, s6);
    LeadsOn(r0 + [s4] + [s5] + [s6], i, OfWire(Hear), s6, s7);
    r := r0 + [s4] + [s5] + [s6] + [s7];
  }

  lemma PathToEnd(r0: seq<State>) returns (r: seq<State>)
    requires Leads(r0, Init(false), State(EdgeAt(Awaiting), WireAt(false, 1, true, 1), AgentAt(Accepted, [], 1, {})))
    ensures Leads(r, Init(false), State(EdgeAt(Sent), WireAt(true, 2, true, 1), AgentAt(Ended(true), [], 0, {0})))
  {
    var i, x := Init(false), EdgeAt(Sent);
    var s7 := State(EdgeAt(Awaiting), WireAt(false, 1, true, 1), AgentAt(Accepted, [], 1, {}));
    var s8 := State(x, WireAt(true, 1, true, 1), AgentAt(Accepted, [], 1, {}));
    var s9 := State(x, WireAt(true, 2, true, 1), AgentAt(Accepted, [], 1, {}));
    var s10 := State(x, WireAt(true, 2, true, 1), AgentAt(Accepted, [], 1, {0}));
    var s11 := State(x, WireAt(true, 2, true, 1), AgentAt(Ended(true), [], 0, {0}));
    LeadsOn(r0, i, OfWire(ReadAccept(0)), s7, s8);
    LeadsOn(r0 + [s8], i, OfWire(Deliver(false)), s8, s9);
    LeadsOn(r0 + [s8] + [s9], i, OfAgent(ReadRequest(0)), s9, s10);
    LeadsOn(r0 + [s8] + [s9] + [s10], i, OfAgent(Finish(0)), s10, s11);
    r := r0 + [s8] + [s9] + [s10] + [s11];
  }

  /** A stream is opened, taken, accepted, its request sent and read, and the handler ends. */
  lemma ServedRun() returns (r: seq<State>)
    ensures Run(r) && |r| > 0
    ensures var s := r[|r| - 1];
      && s.edge.opens == map[0 := Sent] && s.wire.sent == [Syn(0), Data(0)] && s.wire.back == [AcceptByte(0)]
      && s.agent.served == {0} && s.agent.taken == map[0 := Ended(true)] && s.agent.inflight == 0
  {
    r := PathToUse(Init(false));
    r := PathToAccept(r);
    r := PathToEnd(r);
  }
}

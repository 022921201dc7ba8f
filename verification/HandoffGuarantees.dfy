/** What the hand-off of streams guarantees, in every state of every run of `Handoff`. */
module HandoffGuarantees {
  import opened Handoff
  import opened Options
  import opened Basics

  ghost predicate SentBefore(w: Wire, f: Frame, p: nat) {
    exists q :: 0 <= q < p && q < |w.sent| && w.sent[q] == f
  }

  /** Exactly one accept byte was written for `i`, and the edge has read it. */
  ghost predicate AcceptedOnce(w: Wire, i: Id) {
    exists q :: 0 <= q < w.heard && q < |w.back| && w.back[q] == AcceptByte(i)
      && forall q' :: 0 <= q' < |w.back| && w.back[q'] == AcceptByte(i) ==> q' == q
  }

  /** Drain ordering. Once an acknowledgement is written without the edge's own timeout, then in every later state of
      the run the session is retired, no open that may be used is in flight, no open has begun since, and the opening
      frame of every stream in use stands before the acknowledgement. */
  lemma DrainOrdering(r: seq<State>, k: nat, p: nat, m: nat)
    requires Run(r) && k <= m < |r| && p < |r[k].wire.sent| && r[k].wire.sent[p] == Ack(true)
    ensures Calm(r[m].edge) && r[m].edge.opens.Keys == r[k].edge.opens.Keys
    ensures forall i <- r[m].edge.opens :: r[m].edge.opens[i].Used() ==> SentBefore(r[m].wire, Syn(i), p)
  {
    RunKeeps(r, k);
    RunOnward(r, k, m);
    RunKeeps(r, m);
    forall i <- r[m].edge.opens | r[m].edge.opens[i].Used() ensures SentBefore(r[m].wire, Syn(i), p) {
      assert r[m].wire.sent[r[m].wire.synAt[i]] == Syn(i);
    }
  }

  /** The counters are what they are meant to count, and the wake-up channel is never closed twice. */
  lemma OpensCounted(r: seq<State>, k: nat)
    requires Run(r) && k < |r|
    ensures 0 <= r[k].edge.conn.stuck <= r[k].edge.conn.opening
    ensures r[k].edge.conn.LiveOpens() == |set i | i in r[k].edge.opens && r[k].edge.opens[i].Opening?|
    ensures r[k].edge.conn.ChannelsOk()
  {
    RunKeeps(r, k);
    var x := r[k].edge;
    assert StuckOpens(x) <= Counted(x);
    assert Counted(x) - StuckOpens(x) == set i | i in x.opens && x.opens[i].Opening?;
    assert |Counted(x)| == |Counted(x) - StuckOpens(x)| + |StuckOpens(x)|;
  }

  /** The drain's own wake-up is not lost: while it waits, its channel is open exactly as long as an open that may be
      used is in flight. */
  lemma DrainWakes(r: seq<State>, k: nat)
    requires Run(r) && k < |r| && r[k].edge.drain.Waiting?
    ensures r[k].edge.drain.ch !in r[k].edge.conn.closed <==> exists i <- r[k].edge.opens :: r[k].edge.opens[i].Opening?
  {
    RunKeeps(r, k);
    OpensCounted(r, k);
    var x := r[k].edge;
    var live := set i | i in x.opens && x.opens[i].Opening?;
    if live != {} { var i :| i in live; assert i in x.opens && x.opens[i].Opening?; }
    assert forall i <- x.opens :: x.opens[i].Opening? ==> i in live;
  }

  /** An agent that has read such an acknowledgement has already been told of every stream in use. */
  lemma AckMeansAll(r: seq<State>, k: nat, i: Id)
    requires Run(r) && k < |r| && r[k].agent.acked == Some(true)
    requires i in r[k].edge.opens && r[k].edge.opens[i].Used()
    ensures i in r[k].agent.taken
  {
    RunKeeps(r, k);
    assert r[k].wire.sent[r[k].agent.ackAt] == Ack(true);
  }

  /** The agent leaves its backlog loop at step `j`. */
  ghost predicate LeavesAt(r: seq<State>, j: nat) { j + 1 < |r| && !r[j].agent.draining && r[j + 1].agent.draining }

  /** Step `t` takes the stream at the head of the queue. */
  ghost predicate TakesAt(r: seq<State>, t: nat)
    requires t + 1 < |r|
  {
    r[t].agent.queue != [] && r[t + 1].agent.queue == r[t].agent.queue[1..]
  }

  /** How many streams were taken off the queue between `k` and `j`. */
  ghost function Took(r: seq<State>, k: nat, j: nat): nat
    requires k <= j < |r|
  {
    if k == j then 0 else Took(r, k, j - 1) + One(TakesAt(r, j - 1))
  }

  /** The queue stays, loses its head, or grows at its end by a stream not seen before. */
  ghost predicate QueueMoves(a: Agent, a': Agent) {
    || a'.queue == a.queue
    || (a.queue != [] && a'.queue == a.queue[1..])
    || (|a'.queue| == |a.queue| + 1 && a'.queue[..|a.queue|] == a.queue && a'.queue[|a.queue|] !in a.taken)
  }

  lemma QueueStep(r: seq<State>, t: nat)
    requires Run(r) && t + 1 < |r|
    ensures QueueMoves(r[t].agent, r[t + 1].agent)
  {
    RunKeeps(r, t);
    assert NextAt(r, t);
    var e: Event :| Enabled(r[t], e) && r[t + 1] == Apply(r[t], e);
    match e
    case OfEdge(_) =>
    case OfAgent(a) => AgentMoves(r[t].agent, r[t].wire, a);
    case OfWire(w) => WireMoves(r[t], w);
  }

  lemma WireMoves(s: State, e: WireEvent)
    requires Frames(s.wire) && Agreed(s.wire, s.agent.taken, s.agent.served) && WireEnabled(s, e)
    ensures QueueMoves(s.agent, WireStep(s, e).agent)
  {
    if e.Deliver? {
      ArrivalAgreed(s.wire, s.agent, e.full);
      ArrivalMoves(s.agent, s.wire.sent[s.wire.got], s.wire.got, e.full);
    }
  }

  lemma AgentMoves(a: Agent, w: Wire, e: AgentEvent)
    requires AgentEnabled(a, w, e)
    ensures QueueMoves(a, AgentStep(a, w, e))
  {}

  lemma ArrivalMoves(a: Agent, f: Frame, p: nat, full: bool)
    requires f.Syn? ==> f.id !in a.taken
    ensures QueueMoves(a, Arrival(a, f, p, full))
  {}

  /** Where a queued stream stands `j - k` steps later, if the queue moved as it does. */
  ghost predicate StandsAt(was: seq<Id>, now: seq<Id>, took: nat, p: nat)
    requires p < |was|
  {
    && (was[p] in now <==> took <= p)
    && (took <= p ==> p - took < |now| && now[p - took] == was[p])
  }

  lemma StandsNext(was: seq<Id>, a: Agent, a': Agent, took: nat, p: nat)
    requires p < |was| && StandsAt(was, a.queue, took, p) && QueueMoves(a, a') && Queue(a) && was[p] in a.taken
    ensures StandsAt(was, a'.queue, took + One(a.queue != [] && a'.queue == a.queue[1..]), p)
  {
    var q, q' := a.queue, a'.queue;
    if q != [] && q' == q[1..] {
      StandsOn(was, q, took, p);
    } else if q' != q {
      assert q' == q + [q'[|q|]];
      StandsStill(was, q, q'[|q|], took, p);
    }
  }

  lemma StandsOn(was: seq<Id>, q: seq<Id>, took: nat, p: nat)
    requires p < |was| && q != [] && StandsAt(was, q, took, p) && NoRepeat(q)
    ensures StandsAt(was, q[1..], took + 1, p)
  {
    assert forall n :: 0 < n < |q| ==> q[1..][n - 1] == q[n] != q[0];
  }

  lemma StandsStill(was: seq<Id>, q: seq<Id>, x: Id, took: nat, p: nat)
    requires p < |was| && StandsAt(was, q, took, p) && x != was[p]
    ensures StandsAt(was, q + [x], took, p)
  {}

  lemma QueueHolds(r: seq<State>, k: nat, j: nat, p: nat)
    requires Run(r) && k <= j < |r| && p < |r[k].agent.queue|
    ensures Queue(r[j].agent) && r[k].agent.queue[p] in r[j].agent.taken
  {
    RunKeeps(r, k);
    RunKeeps(r, j);
    RunOnward(r, k, j);
  }

  /** First come, first taken: a stream queued at `k` in place `p` is still queued at `j` exactly if no more than `p`
      streams were taken in between, and then that many places further on. */
  lemma {:induction false} QueuePosition(r: seq<State>, k: nat, j: nat, p: nat)
    requires Run(r) && k <= j < |r| && p < |r[k].agent.queue|
    ensures StandsAt(r[k].agent.queue, r[j].agent.queue, Took(r, k, j), p)
  {
    if k < j {
      QueuePosition(r, k, j - 1, p);
      QueueStep(r, j - 1);
      QueueHolds(r, k, j - 1, p);
      StandsNext(r[k].agent.queue, r[j - 1].agent, r[j].agent, Took(r, k, j - 1), p);
    }
  }

  /** In place `p` of the queue, or further on. */
  ghost predicate Behind(q: seq<Id>, took: nat, i: Id) { exists p: nat :: took <= p < |q| && q[p] == i }

  /** Clean handoff: when the agent that read such an acknowledgement stops taking streams, each stream in use has
      arrived and GoAway has cut none. It is left in the queue exactly if it was queued at the acknowledgement and the
      loop took no more streams since than stood before it then; otherwise it was taken to be served, or was refused
      (by the agent, or by a full accept queue) for the edge to retry. So nothing in use is left exactly if the loop
      took at least as many as it takes to reach the last of them. */
  lemma CleanHandoff(r: seq<State>, k: nat, j: nat, m: nat, i: Id)
    requires Run(r) && k <= j < m < |r| && !r[k].agent.short && r[k].agent.acked == Some(true) && LeavesAt(r, j)
    requires i in r[m].edge.opens && r[m].edge.opens[i].Used()
    ensures i in r[k].agent.taken && i in r[j].agent.taken && i in r[m].agent.taken && !r[m].agent.taken[i].ResetAway?
    ensures i in r[j + 1].agent.taken
    ensures r[j + 1].agent.taken[i].Queued? <==> Behind(r[k].agent.queue, Took(r, k, j), i)
    ensures r[m].agent.taken[i].Queued? ==> r[j + 1].agent.taken[i].Queued?
    ensures r[j + 1].agent.taken[i].Queued? <==> i in r[j].agent.queue
    ensures i in r[j].agent.queue ==> i in r[k].agent.queue
  {
    RunOnward(r, k, m);
    RunOnward(r, k, j);
    RunOnward(r, j, m);
    AckIsCalm(r, k);
    AckMeansAll(r, k, i);
    LeavingKeeps(r, j);
    NotCut(r, m, i);
    QueuedIsQueued(r, k, i);
    QueuedIsQueued(r, j, i);
    LeftBehindBy(r, k, j, i);
  }

  lemma LeftBehindBy(r: seq<State>, k: nat, j: nat, i: Id)
    requires Run(r) && k <= j < |r| && (i in r[j].agent.queue ==> i in r[k].agent.queue)
    ensures i in r[j].agent.queue <==> Behind(r[k].agent.queue, Took(r, k, j), i)
  {
    var q := r[k].agent.queue;
    forall p: nat | p < |q| ensures StandsAt(q, r[j].agent.queue, Took(r, k, j), p) { QueuePosition(r, k, j, p); }
    AllStand(q, r[j].agent.queue, Took(r, k, j), i);
  }

  lemma AllStand(was: seq<Id>, now: seq<Id>, took: nat, i: Id)
    requires forall p: nat | p < |was| :: StandsAt(was, now, took, p)
    requires i in now ==> i in was
    ensures i in now <==> Behind(was, took, i)
  {
    if i in now {
      var p: nat :| p < |was| && was[p] == i;
      assert StandsAt(was, now, took, p);
    }
    if Behind(was, took, i) {
      var p: nat :| took <= p < |was| && was[p] == i;
      assert StandsAt(was, now, took, p);
    }
  }

  lemma AckIsCalm(r: seq<State>, k: nat)
    requires Run(r) && k < |r| && r[k].agent.acked == Some(true)
    ensures Calm(r[k].edge)
  {
    RunKeeps(r, k);
    assert r[k].wire.sent[r[k].agent.ackAt] == Ack(true);
  }

  lemma NotCut(r: seq<State>, k: nat, i: Id)
    requires Run(r) && k < |r| && !r[k].agent.short && r[k].agent.acked == Some(true)
    requires i in r[k].edge.opens && r[k].edge.opens[i].Used() && i in r[k].agent.taken
    ensures !r[k].agent.taken[i].ResetAway?
  {
    RunKeeps(r, k);
  }

  lemma QueuedIsQueued(r: seq<State>, k: nat, i: Id)
    requires Run(r) && k < |r| && i in r[k].agent.taken
    ensures r[k].agent.taken[i].Queued? <==> i in r[k].agent.queue
  {
    RunKeeps(r, k);
    if i in r[k].agent.queue { var q :| 0 <= q < |r[k].agent.queue| && r[k].agent.queue[q] == i; }
  }

  lemma LeavingKeeps(r: seq<State>, j: nat)
    requires Run(r) && LeavesAt(r, j)
    ensures r[j + 1].agent.taken == r[j].agent.taken
  {
    assert NextAt(r, j);
    var e: Event :| Enabled(r[j], e) && r[j + 1] == Apply(r[j], e);
    if e.OfAgent? { OnlyRefuseNew(r[j].agent, r[j].wire, e.a); }
  }

  lemma OnlyRefuseNew(a: Agent, w: Wire, e: AgentEvent)
    requires AgentEnabled(a, w, e) && !a.draining && AgentStep(a, w, e).draining
    ensures AgentStep(a, w, e).taken == a.taken
  {}

  lemma UnacceptedIsEmpty(r: seq<State>, k: nat, i: Id)
    requires Run(r) && k < |r| && i in r[k].agent.taken && !r[k].agent.taken[i].DidAccept()
    ensures Data(i) !in r[k].wire.sent && AcceptByte(i) !in r[k].wire.back && i !in r[k].agent.served
  {
    RunKeeps(r, k);
  }

  /** A stream left in the queue has carried no request byte, is never accepted and never served; if anything, it is
      refused. */
  lemma LeftQueuedUnserved(r: seq<State>, k: nat, m: nat, i: Id)
    requires Run(r) && k <= m < |r| && r[k].agent.draining && i in r[k].agent.taken && r[k].agent.taken[i].Queued?
    ensures i in r[m].agent.taken && (r[m].agent.taken[i].Queued? || r[m].agent.taken[i].Refused?)
    ensures Data(i) !in r[m].wire.sent && AcceptByte(i) !in r[m].wire.back && i !in r[m].agent.served
  {
    RunOnward(r, k, m);
    UnacceptedIsEmpty(r, m, i);
  }

  /** The accept-byte rule: the edge sends a request only after reading the one accept byte of that stream, at most
      once, and the agent reads requests only from streams it accepted. */
  lemma AcceptBeforeRequest(r: seq<State>, k: nat, p: nat)
    requires Run(r) && k < |r| && p < |r[k].wire.sent| && r[k].wire.sent[p].Data?
    ensures AcceptedOnce(r[k].wire, r[k].wire.sent[p].id)
    ensures forall p' :: 0 <= p' < |r[k].wire.sent| && r[k].wire.sent[p'] == r[k].wire.sent[p] ==> p' == p
    ensures forall i <- r[k].agent.served :: i in r[k].agent.taken && r[k].agent.taken[i].DidAccept()
  {
    RunKeeps(r, k);
    var i := r[k].wire.sent[p].id;
    assert r[k].wire.back[r[k].wire.acceptAt[i]] == AcceptByte(i);
  }

  /** What makes a retry elsewhere safe: once the edge has given a stream up, whatever the agent does with it, it
      carries no request byte and the agent reads no request from it, then or ever; an agent that accepts late finds
      it empty. */
  lemma GivenUpStaysEmpty(r: seq<State>, k: nat, m: nat, i: Id)
    requires Run(r) && k <= m < |r| && i in r[k].edge.opens && r[k].edge.opens[i].GivenUp()
    ensures i in r[m].edge.opens && r[m].edge.opens[i] == r[k].edge.opens[i]
    ensures Data(i) !in r[m].wire.sent && i !in r[m].agent.served
  {
    RunOnward(r, k, m);
    RunKeeps(r, m);
  }

  /** A refused stream carries no request byte, then or ever. */
  lemma RefusedStaysEmpty(r: seq<State>, k: nat, m: nat, i: Id)
    requires Run(r) && k <= m < |r| && i in r[k].agent.taken && Final(r[k].agent.taken[i])
    ensures Data(i) !in r[m].wire.sent && AcceptByte(i) !in r[m].wire.back && i !in r[m].agent.served
  {
    RunOnward(r, k, m);
    UnacceptedIsEmpty(r, m, i);
  }

  /** After `refuseNew` no stream joins the ones in flight. */
  lemma NoNewWork(r: seq<State>, k: nat, m: nat)
    requires Run(r) && k <= m < |r| && r[k].agent.draining
    ensures InFlight(r[m].agent) <= InFlight(r[k].agent) && 0 <= r[m].agent.inflight <= r[k].agent.inflight
  {
    RunOnward(r, k, m);
    RunKeeps(r, k);
    RunKeeps(r, m);
    var before, after := InFlight(r[k].agent), InFlight(r[m].agent);
    assert |before - after| == |before| - |after|;
  }

  // ---- What is taken is served ----

  ghost predicate Late(a: Agent) { a.goAway || a.draining }

  ghost predicate RefusedLate(a: Agent) { forall i <- a.taken :: a.taken[i].Refused? ==> Late(a) }

  lemma AgentRefusesLate(a: Agent, w: Wire, e: AgentEvent)
    requires AgentEnabled(a, w, e) && RefusedLate(a)
    ensures RefusedLate(AgentStep(a, w, e))
  {}

  lemma WireRefusesLate(s: State, e: WireEvent)
    requires WireEnabled(s, e) && RefusedLate(s.agent)
    ensures RefusedLate(WireStep(s, e).agent)
  {}

  /** The agent refuses a stream only once it has sent GoAway or is draining. */
  lemma {:induction false} RefusedOnlyLate(r: seq<State>, k: nat)
    requires Run(r) && k < |r|
    ensures forall i <- r[k].agent.taken :: r[k].agent.taken[i].Refused? ==> r[k].agent.goAway || r[k].agent.draining
  {
    if k > 0 {
      RefusedOnlyLate(r, k - 1);
      assert NextAt(r, k - 1);
      var e: Event :| Enabled(r[k - 1], e) && r[k] == Apply(r[k - 1], e);
      match e
      case OfEdge(_) =>
      case OfAgent(a) => AgentRefusesLate(r[k - 1].agent, r[k - 1].wire, a);
      case OfWire(w) => WireRefusesLate(r[k - 1], w);
    }
  }

  /** Until then a stream taken off the queue is counted in flight, to be accepted. */
  lemma TakenIsServed(r: seq<State>, t: nat)
    requires Run(r) && t + 1 < |r| && TakesAt(r, t) && !r[t].agent.goAway && !r[t].agent.draining
    ensures var i := r[t].agent.queue[0];
      && i in r[t + 1].agent.taken && r[t + 1].agent.taken[i].Serving?
      && r[t + 1].agent.inflight == r[t].agent.inflight + 1
  {
    assert NextAt(r, t);
    var e: Event :| Enabled(r[t], e) && r[t + 1] == Apply(r[t], e);
    match e
    case OfEdge(_) =>
    case OfAgent(a) => OnlyTakeTakes(r[t].agent, r[t].wire, a);
    case OfWire(w) => WireTakesNone(r[t], w);
  }

  lemma OnlyTakeTakes(a: Agent, w: Wire, e: AgentEvent)
    requires AgentEnabled(a, w, e) && a.queue != [] && AgentStep(a, w, e).queue == a.queue[1..] && !Late(a)
    ensures var a' := AgentStep(a, w, e); var i := a.queue[0];
      i in a'.taken && a'.taken[i].Serving? && a'.inflight == a.inflight + 1
  {
    assert |a.queue[1..]| != |a.queue|;
  }

  lemma WireTakesNone(s: State, e: WireEvent)
    requires WireEnabled(s, e)
    ensures |WireStep(s, e).agent.queue| >= |s.agent.queue|
  {}

  // ---- When a stream may be opened ----

  /** An open begins only on a session that is not retired, and while no earlier open is stuck. */
  lemma BeginsFreely(r: seq<State>, k: nat, i: Id)
    requires Run(r) && k + 1 < |r| && i !in r[k].edge.opens && i in r[k + 1].edge.opens
    ensures r[k + 1].edge.opens[i].Opening? && !r[k].edge.conn.retired
    ensures forall j <- r[k].edge.opens :: !r[k].edge.opens[j].Stuck?
  {
    RunKeeps(r, k);
    assert NextAt(r, k);
    var e: Event :| Enabled(r[k], e) && r[k + 1] == Apply(r[k], e);
    assert e == OfEdge(Begin(i)) by { OnlyBeginBegins(r[k], e, i); }
    assert forall j <- r[k].edge.opens :: r[k].edge.opens[j].Stuck? ==> j in StuckOpens(r[k].edge);
  }

  lemma OnlyBeginBegins(s: State, e: Event, i: Id)
    requires Enabled(s, e) && i !in s.edge.opens && i in Apply(s, e).edge.opens
    ensures e == OfEdge(Begin(i))
  {}

  /** Conversely one may begin on any other session; and none after the session is retired, on whatever occasion. */
  lemma MayBegin(s: State, i: Id)
    requires i !in s.edge.opens
    ensures Enabled(s, OfEdge(Begin(i))) <==> !s.edge.conn.retired && s.edge.conn.stuck <= 0
    ensures !Enabled(Apply(s, OfEdge(Retire)), OfEdge(Begin(i)))
    ensures Enabled(s, OfEdge(DrainBegin)) ==> !Enabled(Apply(s, OfEdge(DrainBegin)), OfEdge(Begin(i)))
  {}
}

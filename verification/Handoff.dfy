/** One version 2 tunnel session, edge and agent together: stream opens, the accept byte, the
    drain request and its acknowledgement, GoAway, and the agent's accept queue. Every mutex
    section and every frame written or read is one step, timeouts are steps that may always
    happen, and a run is any interleaving. Frames of each direction arrive in the order sent. */
module Handoff {
  import opened AgentConns
  import opened Options
  import opened Basics

  type Id = nat  // one per stream open

  /** An open as the edge sees it. */
  datatype Open =
    | Opening   // past the retired check; `OpenStream` has not returned
    | Stuck     // given up on, `OpenStream` still blocked
    | Failed    // `OpenStream` returned an error
    | Unused    // given up on and then completed: closed unused
    | Awaiting  // completed, no byte sent: the edge waits for the accept byte
    | Sent      // accept byte read, preamble and head sent
    | Dropped   // refused, timed out, or a wrong byte: closed, nothing sent
  {
    /** The caller got the stream and uses it. */
    predicate Used() { Awaiting? || Sent? || Dropped? }
    predicate Counted() { Opening? || Stuck? }
    /** The edge is done with it without having sent anything. */
    predicate GivenUp() { Failed? || Unused? || Dropped? }
  }

  /** A stream as the agent sees it, once its opening frame has arrived. */
  datatype Taken =
    | Queued          // in the accept queue
    | ResetAway       // arrived after GoAway: reset by the session
    | ResetFull       // the accept queue was full: reset by the session
    | Refused         // closed without the accept byte
    | Serving         // counted in flight, accept byte not yet written
    | Accepted        // accept byte written
    | Ended(ok: bool) // handler returned; `ok` says it had accepted
  {
    predicate InFlight() { Serving? || Accepted? }
    predicate DidAccept() { Accepted? || (Ended? && ok) }
  }

  datatype Frame = Syn(id: Id) | Data(id: Id) | Ack(clean: bool)
  datatype Back = AcceptByte(id: Id) | DrainRequest

  datatype Drain = NoDrain | Retiring | Waiting(ch: nat) | Ready(clean: bool)

  /** The edge's side: the session's counters, its opens, and the drain request being served. */
  datatype Edge = Edge(conn: Conn, opens: map<Id, Open>, drain: Drain)

  /** Each direction of the tunnel: all frames ever written, where each was written, and how many have been read. */
  datatype Wire = Wire(sent: seq<Frame>, synAt: map<Id, nat>, dataAt: map<Id, nat>, got: nat,
                       back: seq<Back>, acceptAt: map<Id, nat>, heard: nat)

  /** The agent's side. `short` is a drain_timeout under minHandoff; `ackAt` is where the acknowledgement was read;
      `closed`: the session has ended. */
  datatype Agent = Agent(short: bool, asked: bool, acked: Option<bool>, ackAt: nat, timedOut: bool, goAway: bool,
                         draining: bool, closed: bool, queue: seq<Id>, taken: map<Id, Taken>, inflight: int,
                         served: set<Id>)

  datatype State = State(edge: Edge, wire: Wire, agent: Agent)

  function Init(short: bool): State {
    State(Edge(FRESH, map[], NoDrain), Wire([], map[], map[], 0, [], map[], 0),
          Agent(short, false, None, 0, false, false, false, false, [], map[], 0, {}))
  }

  // ---- Steps of the edge alone ----

  datatype EdgeEvent =
    | Begin(i: Id) | Complete(i: Id, ok: bool) | GiveUp(i: Id) | Drop(i: Id)
    | Retire | DrainBegin | DrainCheck | DrainWake | DrainTimeout

  predicate EdgeEnabled(x: Edge, w: Wire, e: EdgeEvent) {
    match e
    case Begin(i) => i !in x.opens && CheckOpen(x.conn) == MayOpen
    case Complete(i, ok) => i in x.opens && x.opens[i].Counted() && (ok ==> i in w.synAt)
    case GiveUp(i) => i in x.opens && x.opens[i].Opening?
    case Drop(i) => i in x.opens && x.opens[i].Awaiting?
    case Retire => true
    case DrainBegin => x.drain.NoDrain? && exists q :: 0 <= q < w.heard && q < |w.back| && w.back[q] == DrainRequest
    case DrainCheck => x.drain.Retiring?
    case DrainWake => x.drain.Waiting? && x.drain.ch in x.conn.closed
    case DrainTimeout => x.drain.Waiting?
  }

  function EdgeStep(x: Edge, w: Wire, e: EdgeEvent): Edge
    requires EdgeEnabled(x, w, e)
  {
    match e
    case Begin(i) => x.(conn := Began(x.conn), opens := x.opens[i := Opening])
    case Complete(i, ok) =>
      var abandoned := x.opens[i].Stuck?;
      x.(conn := Completed(x.conn, abandoned),
         opens := x.opens[i := if abandoned then Unused else if ok then Awaiting else Failed])
    case GiveUp(i) => x.(conn := GivenUp(x.conn), opens := x.opens[i := Stuck])
    case Drop(i) => x.(opens := x.opens[i := Dropped])
    case Retire => x.(conn := Retired(x.conn))
    case DrainBegin => x.(conn := Retired(x.conn), drain := Retiring)
    case DrainCheck =>
      var (c, wait) := DrainChecked(x.conn);
      x.(conn := c, drain := if wait.None? then Ready(true) else Waiting(wait.value))
    case DrainWake => x.(drain := Ready(true))
    case DrainTimeout => x.(drain := Ready(false))
  }

  // ---- Steps of the agent alone ----

  datatype AgentEvent =
    | Take | RefuseLate | FailAccept(i: Id) | ReadRequest(i: Id) | Finish(i: Id) | AckTimeout | GoAway
    | SessionEnds
    | RefuseNew  // the backlog loop was left: the queue stayed quiet, or looked so, or the session ended

  predicate AgentEnabled(a: Agent, w: Wire, e: AgentEvent) {
    match e
    case Take => a.queue != []
    case RefuseLate => a.queue != [] && a.goAway
    case FailAccept(i) => i in a.taken && a.taken[i].Serving?
    case ReadRequest(i) => i in a.taken && a.taken[i].Accepted? && i in w.dataAt && w.dataAt[i] < w.got
    case Finish(i) => i in a.taken && a.taken[i].Accepted?
    case AckTimeout => a.asked && a.acked.None?
    case GoAway => a.acked.Some? || a.timedOut || a.short || a.closed
    case SessionEnds => true
    case RefuseNew => a.short || a.goAway || a.closed
  }

  function AgentStep(a: Agent, w: Wire, e: AgentEvent): Agent
    requires AgentEnabled(a, w, e)
  {
    match e
    case Take =>
      if a.draining then Refusing(a)
      else a.(queue := a.queue[1..], taken := a.taken[a.queue[0] := Serving], inflight := a.inflight + 1)
    case RefuseLate => Refusing(a)
    case FailAccept(i) => a.(taken := a.taken[i := Ended(false)], inflight := a.inflight - 1)
    case ReadRequest(i) => a.(served := a.served + {i})
    case Finish(i) => a.(taken := a.taken[i := Ended(true)], inflight := a.inflight - 1)
    case AckTimeout => a.(timedOut := true)
    case GoAway => a.(goAway := true)
    case SessionEnds => a.(closed := true)
    case RefuseNew => a.(draining := true)
  }

  /** The oldest queued stream is closed without the accept byte. */
  function Refusing(a: Agent): Agent
    requires a.queue != []
  {
    a.(queue := a.queue[1..], taken := a.taken[a.queue[0] := Refused])
  }

  // ---- Steps that write or read a frame ----

  function WroteSyn(w: Wire, i: Id): Wire { w.(sent := w.sent + [Syn(i)], synAt := w.synAt[i := |w.sent|]) }
  function WroteAck(w: Wire, clean: bool): Wire { w.(sent := w.sent + [Ack(clean)]) }
  function WroteData(w: Wire, i: Id): Wire { w.(sent := w.sent + [Data(i)], dataAt := w.dataAt[i := |w.sent|]) }
  function WroteAccept(w: Wire, i: Id): Wire {
    w.(back := w.back + [AcceptByte(i)], acceptAt := w.acceptAt[i := |w.back|])
  }
  function WroteRequest(w: Wire): Wire { w.(back := w.back + [DrainRequest]) }

  datatype WireEvent =
    | WriteSyn(i: Id) | WriteAck | ReadAccept(i: Id) | Hear | Deliver(full: bool) | SendAccept(i: Id) | Ask

  predicate WireEnabled(s: State, e: WireEvent) {
    var State(x, w, a) := s;
    match e
    case WriteSyn(i) => i in x.opens && x.opens[i].Counted() && i !in w.synAt
    case WriteAck => x.drain.Ready?
    case ReadAccept(i) => i in x.opens && x.opens[i].Awaiting? && i in w.acceptAt && w.acceptAt[i] < w.heard
    case Hear => w.heard < |w.back|
    case Deliver(_) => w.got < |w.sent| && !a.closed
    case SendAccept(i) => i in a.taken && a.taken[i].Serving? && !a.closed
    case Ask => !a.asked && !a.closed
  }

  function WireStep(s: State, e: WireEvent): State
    requires WireEnabled(s, e)
  {
    var State(x, w, a) := s;
    match e
    case WriteSyn(i) => s.(wire := WroteSyn(w, i))
    case WriteAck => s.(wire := WroteAck(w, x.drain.clean), edge := x.(drain := NoDrain))
    case ReadAccept(i) => s.(edge := x.(opens := x.opens[i := Sent]), wire := WroteData(w, i))
    case Hear => s.(wire := w.(heard := w.heard + 1))
    case Deliver(full) => s.(wire := w.(got := w.got + 1), agent := Arrival(a, w.sent[w.got], w.got, full))
    case SendAccept(i) => s.(agent := a.(taken := a.taken[i := Accepted]), wire := WroteAccept(w, i))
    case Ask => s.(agent := a.(asked := true), wire := WroteRequest(w))
  }

  /** The agent's session reads one frame. */
  function Arrival(a: Agent, f: Frame, p: nat, full: bool): Agent {
    match f
    case Syn(i) =>
      if a.goAway then a.(taken := a.taken[i := ResetAway])
      else if full then a.(taken := a.taken[i := ResetFull])
      else a.(taken := a.taken[i := Queued], queue := a.queue + [i])
    case Data(_) => a
    case Ack(clean) => if a.asked && a.acked.None? && !a.timedOut then a.(acked := Some(clean), ackAt := p) else a
  }

  // ---- Runs ----

  datatype Event = OfEdge(x: EdgeEvent) | OfAgent(a: AgentEvent) | OfWire(w: WireEvent)

  predicate Enabled(s: State, e: Event) {
    match e
    case OfEdge(x) => EdgeEnabled(s.edge, s.wire, x)
    case OfAgent(a) => AgentEnabled(s.agent, s.wire, a)
    case OfWire(w) => WireEnabled(s, w)
  }

  function Apply(s: State, e: Event): State
    requires Enabled(s, e)
  {
    match e
    case OfEdge(x) => s.(edge := EdgeStep(s.edge, s.wire, x))
    case OfAgent(a) => s.(agent := AgentStep(s.agent, s.wire, a))
    case OfWire(w) => WireStep(s, w)
  }

  ghost predicate Next(s: State, s': State) {
    exists e: Event :: Enabled(s, e) && s' == Apply(s, e)
  }

  ghost predicate Run(r: seq<State>) {
    && r != [] && r[0] == Init(r[0].agent.short)
    && forall k: nat :: k + 1 < |r| ==> NextAt(r, k)
  }

  ghost predicate NextAt(r: seq<State>, k: nat)
    requires k + 1 < |r|
  {
    Next(r[k], r[k + 1])
  }

  // ---- The invariant ----

  ghost function Counted(x: Edge): set<Id> { set i | i in x.opens && x.opens[i].Counted() }
  ghost function StuckOpens(x: Edge): set<Id> { set i | i in x.opens && x.opens[i].Stuck? }
  ghost function InFlight(a: Agent): set<Id> { set i | i in a.taken && a.taken[i].InFlight() }

  ghost predicate Counts(x: Edge) {
    x.conn.opening == |Counted(x)| && x.conn.stuck == |StuckOpens(x)|
  }

  /** No open that may still be used is in flight, and none can begin. */
  ghost predicate Calm(x: Edge) {
    x.conn.retired && forall i <- x.opens :: !x.opens[i].Opening?
  }

  ghost predicate Drains(x: Edge) {
    && x.conn.ChannelsOk()
    && (x.conn.idle.Some? ==> x.conn.retired && x.conn.LiveOpens() != 0)
    && (x.conn.closed != {} ==> Calm(x))
    && (x.drain.Retiring? ==> x.conn.retired)
    && (x.drain.Waiting? ==> x.conn.retired && (x.drain.ch in x.conn.closed || x.conn.idle == Some(x.drain.ch)))
    && (x.drain == Ready(true) ==> Calm(x))
  }

  /** Recorded positions are those of the frames written, each frame written once. */
  ghost predicate Frames(w: Wire) {
    && w.got <= |w.sent| && w.heard <= |w.back|
    && (forall i <- w.synAt :: w.synAt[i] < |w.sent| && w.sent[w.synAt[i]] == Syn(i))
    && (forall i <- w.dataAt :: w.dataAt[i] < |w.sent| && w.sent[w.dataAt[i]] == Data(i))
    && (forall i <- w.acceptAt :: w.acceptAt[i] < |w.back| && w.back[w.acceptAt[i]] == AcceptByte(i))
    && (forall p | 0 <= p < |w.sent| :: w.sent[p].Syn? ==> w.sent[p].id in w.synAt && w.synAt[w.sent[p].id] == p)
    && (forall p | 0 <= p < |w.sent| :: w.sent[p].Data? ==> w.sent[p].id in w.dataAt && w.dataAt[w.sent[p].id] == p)
    && (forall q | 0 <= q < |w.back| ::
          w.back[q].AcceptByte? ==> w.back[q].id in w.acceptAt && w.acceptAt[w.back[q].id] == q)
  }

  ghost predicate Announced(x: Edge, w: Wire) {
    && (forall i <- w.synAt :: i in x.opens)
    && (forall i <- x.opens :: x.opens[i].Used() ==> i in w.synAt)
    && (forall i <- x.opens :: x.opens[i].Sent? ==> i in w.dataAt)
    && (forall i <- w.dataAt :: i in x.opens && x.opens[i].Sent?)
    && (forall i <- w.dataAt :: i in w.acceptAt && w.acceptAt[i] < w.heard)
  }

  /** A clean acknowledgement stands behind the opening frame of every stream in use. */
  ghost predicate Ordered(x: Edge, w: Wire) {
    forall p | 0 <= p < |w.sent| && w.sent[p] == Ack(true) ::
      Calm(x) && forall i <- x.opens :: x.opens[i].Used() ==> i in w.synAt && w.synAt[i] < p
  }

  ghost predicate Queue(a: Agent) {
    && a.inflight == |InFlight(a)|
    && (forall k | 0 <= k < |a.queue| :: a.queue[k] in a.taken && a.taken[a.queue[k]].Queued?)
    && (forall i <- a.taken :: a.taken[i].Queued? ==> i in a.queue)
    && (forall j, k | 0 <= j < k < |a.queue| :: a.queue[j] != a.queue[k])
  }

  /** What the agent has seen is what was written to it. */
  ghost predicate Agreed(w: Wire, taken: map<Id, Taken>, served: set<Id>) {
    && (forall i <- taken :: i in w.synAt && w.synAt[i] < w.got && (taken[i].DidAccept() ==> i in w.acceptAt))
    && (forall i <- w.synAt :: w.synAt[i] < w.got ==> i in taken)
    && (forall i <- w.acceptAt :: i in taken && taken[i].DidAccept())
    && (forall i <- served :: i in w.dataAt)
  }

  /** How far the agent's shutdown has come. */
  ghost predicate Stages(a: Agent, w: Wire) {
    && (a.acked == Some(true) ==> !a.timedOut && a.ackAt < w.got && a.ackAt < |w.sent| && w.sent[a.ackAt] == Ack(true))
    && (a.goAway && !a.short ==> a.acked.Some? || a.timedOut || a.closed)
    && (forall i <- a.taken :: a.taken[i].ResetAway? ==> a.goAway)
    && (a.draining && !a.short ==> a.goAway || a.closed)
  }

  /** After a clean acknowledgement, GoAway hits no stream in use. */
  ghost predicate Spared(s: State) {
    s.agent.acked == Some(true) && !s.agent.short ==>
      forall i <- s.agent.taken :: s.agent.taken[i].ResetAway? ==> i in s.edge.opens && !s.edge.opens[i].Used()
  }

  ghost predicate Inv(s: State) {
    && Counts(s.edge) && Drains(s.edge) && Frames(s.wire) && Announced(s.edge, s.wire) && Ordered(s.edge, s.wire)
    && Queue(s.agent) && Agreed(s.wire, s.agent.taken, s.agent.served) && Stages(s.agent, s.wire) && Spared(s)
  }

  // ---- Every step keeps it ----

  /** Only stuck opens are counted once none is live. */
  lemma NoneLive(x: Edge)
    requires Counts(x) && x.conn.LiveOpens() <= 0
    ensures forall i <- x.opens :: !x.opens[i].Opening?
  {
    var all, stuck := Counted(x), StuckOpens(x);
    assert stuck <= all;
    assert |all - stuck| == |all| - |stuck|;
    assert forall i <- x.opens :: x.opens[i].Opening? ==> i in all - stuck;
  }

  lemma KeepOpens(x: Edge, x': Edge, i: Id, o: Open)
    requires x'.opens == x.opens[i := o]
    ensures |Counted(x')| == |Counted(x)| + One(o.Counted()) - One(i in x.opens && x.opens[i].Counted())
    ensures |StuckOpens(x')| == |StuckOpens(x)| + One(o.Stuck?) - One(i in x.opens && x.opens[i].Stuck?)
  {
    Recount(Counted(x), Counted(x'), i);
    Recount(StuckOpens(x), StuckOpens(x'), i);
  }

  lemma KeepTaken(a: Agent, a': Agent, i: Id, t: Taken)
    requires a'.taken == a.taken[i := t]
    ensures |InFlight(a')| == |InFlight(a)| + One(t.InFlight()) - One(i in a.taken && a.taken[i].InFlight())
  {
    Recount(InFlight(a), InFlight(a'), i);
  }

  lemma EdgeStepCounts(x: Edge, w: Wire, e: EdgeEvent)
    requires Counts(x) && EdgeEnabled(x, w, e)
    ensures Counts(EdgeStep(x, w, e))
  {
    var x' := EdgeStep(x, w, e);
    match e
    case Begin(i) => KeepOpens(x, x', i, Opening);
    case Complete(i, _) => KeepOpens(x, x', i, x'.opens[i]);
    case GiveUp(i) => KeepOpens(x, x', i, Stuck);
    case Drop(i) => KeepOpens(x, x', i, Dropped);
    case _ => assert Counted(x') == Counted(x) && StuckOpens(x') == StuckOpens(x);
  }

  lemma EdgeStepDrains(x: Edge, w: Wire, e: EdgeEvent)
    requires Counts(x) && Drains(x) && EdgeEnabled(x, w, e)
    ensures Drains(EdgeStep(x, w, e))
  {
    var x' := EdgeStep(x, w, e);
    EdgeStepCounts(x, w, e);
    if x'.conn.LiveOpens() <= 0 { NoneLive(x'); }
    DrainsGivenLive(x, w, e);
  }

  lemma DrainsGivenLive(x: Edge, w: Wire, e: EdgeEvent)
    requires Drains(x) && EdgeEnabled(x, w, e)
    requires var x' := EdgeStep(x, w, e); x'.conn.LiveOpens() <= 0 ==> forall i <- x'.opens :: !x'.opens[i].Opening?
    ensures Drains(EdgeStep(x, w, e))
  {}

  lemma EdgeStepCalm(x: Edge, w: Wire, e: EdgeEvent)
    requires Calm(x) && EdgeEnabled(x, w, e)
    ensures Calm(EdgeStep(x, w, e))
    ensures var x' := EdgeStep(x, w, e);
      && x'.opens.Keys == x.opens.Keys
      && forall i <- x'.opens :: i in x.opens && (x'.opens[i].Used() ==> x.opens[i].Used())
  {}

  lemma EdgeStepAnnounced(x: Edge, w: Wire, e: EdgeEvent)
    requires Announced(x, w) && EdgeEnabled(x, w, e)
    ensures Announced(EdgeStep(x, w, e), w)
  {}

  lemma EdgeStepOrdered(x: Edge, w: Wire, e: EdgeEvent)
    requires Ordered(x, w) && EdgeEnabled(x, w, e)
    ensures Ordered(EdgeStep(x, w, e), w)
  {
    if Calm(x) { EdgeStepCalm(x, w, e); }
  }

  lemma EdgeStepSpared(s: State, e: EdgeEvent)
    requires Ordered(s.edge, s.wire) && Stages(s.agent, s.wire) && Spared(s) && EdgeEnabled(s.edge, s.wire, e)
    ensures Spared(Apply(s, OfEdge(e)))
  {
    if s.agent.acked == Some(true) {
      assert s.wire.sent[s.agent.ackAt] == Ack(true);
      EdgeStepCalm(s.edge, s.wire, e);
    }
  }

  lemma EdgeStepKeeps(s: State, e: EdgeEvent)
    requires Inv(s) && EdgeEnabled(s.edge, s.wire, e)
    ensures Inv(Apply(s, OfEdge(e)))
  {
    EdgeStepCounts(s.edge, s.wire, e);
    EdgeStepDrains(s.edge, s.wire, e);
    EdgeStepAnnounced(s.edge, s.wire, e);
    EdgeStepOrdered(s.edge, s.wire, e);
    EdgeStepSpared(s, e);
  }

  lemma Dequeue(a: Agent, t: Taken)
    requires Queue(a) && a.queue != [] && (t.Refused? || t.Serving?)
    ensures Queue(a.(queue := a.queue[1..], taken := a.taken[a.queue[0] := t],
                     inflight := a.inflight + One(t.Serving?)))
  {
    KeepTaken(a, a.(taken := a.taken[a.queue[0] := t]), a.queue[0], t);
    var a' := a.(queue := a.queue[1..], taken := a.taken[a.queue[0] := t], inflight := a.inflight + One(t.Serving?));
    assert InFlight(a') == InFlight(a.(taken := a.taken[a.queue[0] := t]));
    forall i <- a'.taken | a'.taken[i].Queued? ensures i in a'.queue {
      var k :| 0 <= k < |a.queue| && a.queue[k] == i;
      assert a'.queue[k - 1] == i;
    }
  }

  lemma Retake(a: Agent, i: Id, t: Taken)
    requires Queue(a) && i in a.taken && a.taken[i].InFlight() && (t.Accepted? || t.Ended?)
    ensures Queue(a.(taken := a.taken[i := t], inflight := a.inflight - One(t.Ended?)))
  {
    var a' := a.(taken := a.taken[i := t], inflight := a.inflight - One(t.Ended?));
    KeepTaken(a, a', i, t);
  }

  lemma AgentStepQueue(a: Agent, w: Wire, e: AgentEvent)
    requires Queue(a) && AgentEnabled(a, w, e)
    ensures Queue(AgentStep(a, w, e))
  {
    match e
    case Take =>
      Dequeue(a, Serving);
      Dequeue(a, Refused);
    case RefuseLate => Dequeue(a, Refused);
    case FailAccept(i) => Retake(a, i, Ended(false));
    case Finish(i) => Retake(a, i, Ended(true));
    case _ => assert InFlight(AgentStep(a, w, e)) == InFlight(a);
  }

  lemma AgreedUpdate(w: Wire, taken: map<Id, Taken>, served: set<Id>, i: Id, t: Taken)
    requires Agreed(w, taken, served) && i in taken && t.DidAccept() == taken[i].DidAccept()
    ensures Agreed(w, taken[i := t], served)
  {}

  lemma AgentStepAgreed(a: Agent, w: Wire, e: AgentEvent)
    requires Queue(a) && Agreed(w, a.taken, a.served) && AgentEnabled(a, w, e)
    ensures var a' := AgentStep(a, w, e); Agreed(w, a'.taken, a'.served)
  {
    match e
    case Take =>
      AgreedUpdate(w, a.taken, a.served, a.queue[0], Refused);
      AgreedUpdate(w, a.taken, a.served, a.queue[0], Serving);
    case RefuseLate => AgreedUpdate(w, a.taken, a.served, a.queue[0], Refused);
    case FailAccept(i) => AgreedUpdate(w, a.taken, a.served, i, Ended(false));
    case Finish(i) => AgreedUpdate(w, a.taken, a.served, i, Ended(true));
    case ReadRequest(i) =>
    case _ =>
  }

  lemma AgentStepStages(a: Agent, w: Wire, e: AgentEvent)
    requires Stages(a, w) && AgentEnabled(a, w, e)
    ensures Stages(AgentStep(a, w, e), w)
  {}

  lemma AgentStepSpared(s: State, e: AgentEvent)
    requires Spared(s) && AgentEnabled(s.agent, s.wire, e)
    ensures Spared(Apply(s, OfAgent(e)))
  {
    var a' := AgentStep(s.agent, s.wire, e);
    forall i <- a'.taken ensures a'.taken[i].ResetAway? ==> i in s.agent.taken && s.agent.taken[i].ResetAway? {}
  }

  lemma AgentStepKeeps(s: State, e: AgentEvent)
    requires Inv(s) && AgentEnabled(s.agent, s.wire, e)
    ensures Inv(Apply(s, OfAgent(e)))
  {
    AgentStepQueue(s.agent, s.wire, e);
    AgentStepAgreed(s.agent, s.wire, e);
    AgentStepStages(s.agent, s.wire, e);
    AgentStepSpared(s, e);
  }

  lemma SynKeepsFrames(w: Wire, i: Id)
    requires Frames(w) && i !in w.synAt
    ensures Frames(WroteSyn(w, i))
  {}

  lemma DataKeepsFrames(w: Wire, i: Id)
    requires Frames(w) && i !in w.dataAt
    ensures Frames(WroteData(w, i))
  {}

  lemma AcceptKeepsFrames(w: Wire, i: Id)
    requires Frames(w) && i !in w.acceptAt
    ensures Frames(WroteAccept(w, i))
  {}

  lemma WireStepFrames(s: State, e: WireEvent)
    requires Frames(s.wire) && Agreed(s.wire, s.agent.taken, s.agent.served) && Announced(s.edge, s.wire)
    requires WireEnabled(s, e)
    ensures Frames(WireStep(s, e).wire)
  {
    match e
    case WriteSyn(i) => SynKeepsFrames(s.wire, i);
    case ReadAccept(i) => DataKeepsFrames(s.wire, i);
    case SendAccept(i) => AcceptKeepsFrames(s.wire, i);
    case _ =>
  }

  lemma WireStepEdge(s: State, e: WireEvent)
    requires Counts(s.edge) && Drains(s.edge) && Announced(s.edge, s.wire)
    requires Agreed(s.wire, s.agent.taken, s.agent.served) && WireEnabled(s, e)
    ensures var s' := WireStep(s, e); Counts(s'.edge) && Drains(s'.edge) && Announced(s'.edge, s'.wire)
  {
    var s' := WireStep(s, e);
    if e.ReadAccept? {
      KeepOpens(s.edge, s'.edge, e.i, Sent);
    } else {
      assert Counted(s'.edge) == Counted(s.edge) && StuckOpens(s'.edge) == StuckOpens(s.edge);
    }
  }

  lemma WireStepOrdered(s: State, e: WireEvent)
    requires Drains(s.edge) && Frames(s.wire) && Announced(s.edge, s.wire) && Ordered(s.edge, s.wire)
    requires WireEnabled(s, e)
    ensures var s' := WireStep(s, e); Ordered(s'.edge, s'.wire)
  {}

  lemma Enqueue(a: Agent, i: Id)
    requires Queue(a) && i !in a.taken
    ensures Queue(a.(taken := a.taken[i := Queued], queue := a.queue + [i]))
  {
    var a' := a.(taken := a.taken[i := Queued], queue := a.queue + [i]);
    KeepTaken(a, a', i, Queued);
    assert a'.queue[|a.queue|] == i;
    forall j <- a'.taken | a'.taken[j].Queued? ensures j in a'.queue {
      if j != i { assert j in a.queue; }
    }
  }

  lemma Bounce(a: Agent, i: Id, t: Taken)
    requires Queue(a) && i !in a.taken && (t.ResetAway? || t.ResetFull?)
    ensures Queue(a.(taken := a.taken[i := t]))
  {
    KeepTaken(a, a.(taken := a.taken[i := t]), i, t);
  }

  /** The stream an agent hears of next is new to it. */
  lemma ArrivalQueue(w: Wire, a: Agent, full: bool)
    requires Queue(a) && w.got < |w.sent|
    requires w.sent[w.got].Syn? ==> w.sent[w.got].id !in a.taken
    ensures Queue(Arrival(a, w.sent[w.got], w.got, full))
  {
    match w.sent[w.got]
    case Syn(i) =>
      Enqueue(a, i);
      Bounce(a, i, ResetAway);
      Bounce(a, i, ResetFull);
    case _ => assert InFlight(Arrival(a, w.sent[w.got], w.got, full)) == InFlight(a);
  }

  lemma NewcomerAgreed(w: Wire, a: Agent, i: Id, t: Taken)
    requires Frames(w) && Agreed(w, a.taken, a.served) && w.got < |w.sent| && w.sent[w.got] == Syn(i) && !t.DidAccept()
    ensures i !in a.taken
    ensures Agreed(w.(got := w.got + 1), a.taken[i := t], a.served)
  {
    assert w.synAt[i] == w.got;
    assert forall j <- w.synAt :: w.synAt[j] == w.got ==> j == i;
  }

  lemma ArrivalAgreed(w: Wire, a: Agent, full: bool)
    requires Frames(w) && Agreed(w, a.taken, a.served) && w.got < |w.sent|
    ensures w.sent[w.got].Syn? ==> w.sent[w.got].id !in a.taken
    ensures var a' := Arrival(a, w.sent[w.got], w.got, full); Agreed(w.(got := w.got + 1), a'.taken, a'.served)
  {
    match w.sent[w.got]
    case Syn(i) => NewcomerAgreed(w, a, i, if a.goAway then ResetAway else if full then ResetFull else Queued);
    case _ => OldNewsAgreed(w, a.taken, a.served);
  }

  lemma OldNewsAgreed(w: Wire, taken: map<Id, Taken>, served: set<Id>)
    requires Frames(w) && Agreed(w, taken, served) && w.got < |w.sent| && !w.sent[w.got].Syn?
    ensures Agreed(w.(got := w.got + 1), taken, served)
  {
    assert forall j <- w.synAt :: w.synAt[j] != w.got;
  }

  lemma AcceptAgreed(w: Wire, taken: map<Id, Taken>, served: set<Id>, i: Id)
    requires Agreed(w, taken, served) && i in taken
    ensures Agreed(WroteAccept(w, i), taken[i := Accepted], served)
  {}

  lemma WireStepAgreed(s: State, e: WireEvent)
    requires Frames(s.wire) && Agreed(s.wire, s.agent.taken, s.agent.served) && WireEnabled(s, e)
    ensures var s' := WireStep(s, e); Agreed(s'.wire, s'.agent.taken, s'.agent.served)
  {
    match e
    case SendAccept(i) => AcceptAgreed(s.wire, s.agent.taken, s.agent.served, i);
    case Deliver(full) => ArrivalAgreed(s.wire, s.agent, full);
    case _ =>
  }

  lemma WireStepQueue(s: State, e: WireEvent)
    requires Frames(s.wire) && Agreed(s.wire, s.agent.taken, s.agent.served) && Queue(s.agent) && WireEnabled(s, e)
    ensures Queue(WireStep(s, e).agent)
  {
    match e
    case SendAccept(i) => Retake(s.agent, i, Accepted);
    case Deliver(full) =>
      ArrivalAgreed(s.wire, s.agent, full);
      ArrivalQueue(s.wire, s.agent, full);
    case _ => assert InFlight(WireStep(s, e).agent) == InFlight(s.agent);
  }

  lemma WireStepStages(s: State, e: WireEvent)
    requires Stages(s.agent, s.wire) && WireEnabled(s, e)
    ensures var s' := WireStep(s, e); Stages(s'.agent, s'.wire)
  {}

  /** A stream that arrives behind a clean acknowledgement is not in use. */
  lemma LateIsUnused(s: State, i: Id)
    requires Ordered(s.edge, s.wire) && Frames(s.wire) && Stages(s.agent, s.wire) && Announced(s.edge, s.wire)
    requires s.agent.acked == Some(true) && s.wire.got < |s.wire.sent| && s.wire.sent[s.wire.got] == Syn(i)
    ensures i in s.edge.opens && !s.edge.opens[i].Used()
  {
    assert s.wire.sent[s.agent.ackAt] == Ack(true);
    assert s.wire.synAt[i] == s.wire.got;
  }

  lemma ArrivalSpared(s: State, full: bool)
    requires Announced(s.edge, s.wire) && Ordered(s.edge, s.wire) && Frames(s.wire) && Stages(s.agent, s.wire)
    requires Spared(s) && WireEnabled(s, Deliver(full))
    ensures Spared(WireStep(s, Deliver(full)))
  {
    var f := s.wire.sent[s.wire.got];
    if f.Syn? && s.agent.acked == Some(true) { LateIsUnused(s, f.id); }
  }

  lemma WireStepSpared(s: State, e: WireEvent)
    requires Announced(s.edge, s.wire) && Ordered(s.edge, s.wire) && Frames(s.wire)
    requires Stages(s.agent, s.wire) && Spared(s) && WireEnabled(s, e)
    ensures Spared(WireStep(s, e))
  {
    if e.Deliver? { ArrivalSpared(s, e.full); }
  }

  lemma WireStepKeeps(s: State, e: WireEvent)
    requires Inv(s) && WireEnabled(s, e)
    ensures Inv(Apply(s, OfWire(e)))
  {
    WireStepFrames(s, e);
    WireStepEdge(s, e);
    WireStepOrdered(s, e);
    WireStepAgreed(s, e);
    WireStepQueue(s, e);
    WireStepStages(s, e);
    WireStepSpared(s, e);
  }

  lemma InitKeeps(short: bool)
    ensures Inv(Init(short))
  {
    var s := Init(short);
    assert Counted(s.edge) == {} && StuckOpens(s.edge) == {} && InFlight(s.agent) == {};
  }

  lemma NextKeeps(s: State, s': State)
    requires Inv(s) && Next(s, s')
    ensures Inv(s')
  {
    var e: Event :| Enabled(s, e) && s' == Apply(s, e);
    match e
    case OfEdge(x) => EdgeStepKeeps(s, x);
    case OfAgent(a) => AgentStepKeeps(s, a);
    case OfWire(w) => WireStepKeeps(s, w);
  }

  lemma {:induction false} RunKeeps(r: seq<State>, k: nat)
    requires Run(r) && k < |r|
    ensures Inv(r[k])
  {
    if k == 0 {
      InitKeeps(r[0].agent.short);
    } else {
      RunKeeps(r, k - 1);
      assert NextAt(r, k - 1);
      NextKeeps(r[k - 1], r[k]);
    }
  }

  // ---- What never goes back ----

  ghost predicate Final(t: Taken) { t.Refused? || t.ResetAway? || t.ResetFull? }

  ghost predicate AgentOnward(a: Agent, a': Agent) {
    && (forall i <- a.taken :: i in a'.taken && (Final(a.taken[i]) ==> a'.taken[i] == a.taken[i]))
    && (forall i <- a.taken :: a'.taken[i].Queued? ==> a.taken[i].Queued?)
    && a'.short == a.short && (a.acked == Some(true) ==> a'.acked == Some(true))
    && (a.draining ==> a'.draining && InFlight(a') <= InFlight(a))
    && (a.draining ==> forall i <- a.taken :: a.taken[i].Queued? ==> a'.taken[i].Queued? || a'.taken[i].Refused?)
  }

  /** Nothing begins, and nothing comes into use. */
  ghost predicate CalmOnward(x: Edge, x': Edge) {
    && Calm(x') && x'.opens.Keys == x.opens.Keys
    && forall i <- x'.opens :: x'.opens[i].Used() ==> x.opens[i].Used()
  }

  ghost predicate EdgeOnward(x: Edge, x': Edge) {
    && (forall i <- x.opens :: x.opens[i].GivenUp() ==> i in x'.opens && x'.opens[i] == x.opens[i])
    && (Calm(x) ==> CalmOnward(x, x'))
  }

  ghost predicate Onward(s: State, s': State) {
    s.wire.sent <= s'.wire.sent && EdgeOnward(s.edge, s'.edge) && AgentOnward(s.agent, s'.agent)
  }

  lemma AgentStepOnward(a: Agent, w: Wire, e: AgentEvent)
    requires Queue(a) && AgentEnabled(a, w, e)
    ensures AgentOnward(a, AgentStep(a, w, e))
  {}

  lemma ArrivalOnward(a: Agent, f: Frame, p: nat, full: bool)
    requires f.Syn? ==> f.id !in a.taken
    ensures AgentOnward(a, Arrival(a, f, p, full))
  {}

  lemma EdgeStepOnward(x: Edge, w: Wire, e: EdgeEvent)
    requires EdgeEnabled(x, w, e)
    ensures EdgeOnward(x, EdgeStep(x, w, e))
  {
    if Calm(x) { EdgeStepCalm(x, w, e); }
  }

  lemma WireEdgeOnward(s: State, e: WireEvent)
    requires WireEnabled(s, e)
    ensures EdgeOnward(s.edge, WireStep(s, e).edge) && s.wire.sent <= WireStep(s, e).wire.sent
  {}

  lemma WireAgentOnward(s: State, e: WireEvent)
    requires Frames(s.wire) && Agreed(s.wire, s.agent.taken, s.agent.served) && WireEnabled(s, e)
    ensures AgentOnward(s.agent, WireStep(s, e).agent)
  {
    if e.Deliver? {
      ArrivalAgreed(s.wire, s.agent, e.full);
      ArrivalOnward(s.agent, s.wire.sent[s.wire.got], s.wire.got, e.full);
    }
  }

  lemma NextOnward(s: State, s': State)
    requires Inv(s) && Next(s, s')
    ensures Onward(s, s')
  {
    var e: Event :| Enabled(s, e) && s' == Apply(s, e);
    match e
    case OfEdge(x) => EdgeStepOnward(s.edge, s.wire, x);
    case OfAgent(a) => AgentStepOnward(s.agent, s.wire, a);
    case OfWire(w) =>
      WireEdgeOnward(s, w);
      WireAgentOnward(s, w);
  }

  lemma OnwardTwice(a: State, b: State, c: State)
    requires Onward(a, b) && Onward(b, c)
    ensures Onward(a, c)
  {}

  lemma {:induction false} RunOnward(r: seq<State>, k: nat, m: nat)
    requires Run(r) && k <= m < |r|
    ensures Onward(r[k], r[m])
  {
    if k < m {
      RunOnward(r, k, m - 1);
      RunKeeps(r, m - 1);
      assert NextAt(r, m - 1);
      NextOnward(r[m - 1], r[m]);
      OnwardTwice(r[k], r[m - 1], r[m]);
    }
  }
}

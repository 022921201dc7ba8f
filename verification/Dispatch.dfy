/** Handing a request to an agent: `tryAgent`, one round over the route's sessions
    (`dispatchOnce`) and the wait for an agent around it (`dispatch`). What the rest of the world
    does, the clock included, is an input, so the claims hold for every run. */
module Dispatch {
  import opened Options
  import opened Basics

  type Session = nat

  // ---- One attempt ----

  /** What opening the stream comes to; the first two are known before any wait. */
  datatype Opening = OpenRetired | OpenBlocked | OpenGoAway | OpenFailed | Opened
  datatype Acceptance = Accepted | Refused | WrongByte | Broken

  /** The time that passes outside the waits: until `tryAgent` reads the clock, until the open's timer starts, from the
      open to the second reading of the clock, and until the accept's deadline is set. */
  datatype Delays = Delays(toStart: nat, toOpen: nat, toWindow: nat, toAccept: nat)

  /** What happens during one `tryAgent`: what the open and the accept would come to, and after how long. `gone` is
      whether the session has closed when a failure is looked at. */
  datatype Happens = Happens(open: Opening, opening: nat, gone: bool, preambleOk: bool, reset: bool, accept: Acceptance,
                             accepting: nat, headOk: bool, delays: Delays)
  {
    predicate AtOnce() { open.OpenRetired? || open.OpenBlocked? }

    /** How long the open is waited for, and whether the wait ran out. */
    function OpenWait(wait: nat): nat { if AtOnce() then 0 else Min(opening, wait) }
    predicate TimedOut(wait: nat) { !AtOnce() && opening > wait }

    predicate Awaits(v2: bool, wait: nat) { v2 && open.Opened? && !TimedOut(wait) }

    /** What is left of `wait` for the accept byte, and how long that is waited for. */
    function Window(wait: nat): int { wait - delays.toOpen - OpenWait(wait) - delays.toWindow }
    function AcceptWait(wait: nat): nat { Min(accepting, Max(0, Window(wait))) }
    predicate Answered(wait: nat) { accepting <= Max(0, Window(wait)) && !accept.Broken? }

    function Waited(v2: bool, wait: nat): nat { OpenWait(wait) + if Awaits(v2, wait) then AcceptWait(wait) else 0 }
    function Lag(v2: bool, wait: nat): nat {
      delays.toStart + delays.toOpen + if Awaits(v2, wait) then delays.toWindow + delays.toAccept else 0
    }
  }

  datatype Outcome = OK | Unavailable | Failed | Unknown
  datatype After = Use | Retire | Evict | CoolBriefly | CoolLong | LeaveBe

  /** The outcome, what becomes of the session, and whether the request head was written to it. */
  datatype Try = Try(outcome: Outcome, after: After, head: bool)

  function Outcomes(v2: bool, h: Happens, wait: nat, acceptWait: nat): Try {
    if h.open.OpenRetired? || (h.open.OpenGoAway? && !h.TimedOut(wait)) then Try(Unavailable, Retire, false)
    else if (!h.open.Opened? || h.TimedOut(wait)) && h.gone then Try(Unavailable, Evict, false)
    else if h.TimedOut(wait) then Try(Failed, LeaveBe, false)
    else if h.open.OpenBlocked? then Try(Failed, CoolLong, false)
    else if h.open.OpenFailed? then Try(Failed, Evict, false)
    else if !v2 then
      if h.preambleOk then Try(OK, Use, false)
      else if h.gone then Try(Unavailable, Evict, false)
      else Try(if h.reset then Unavailable else Failed, CoolBriefly, false)
    else if !h.Answered(wait) then
      if h.gone then Try(Unavailable, Evict, false)
      else Try(Failed, if h.Window(wait) >= acceptWait / 2 then CoolLong else LeaveBe, false)
    else if h.accept.Accepted? then
      if h.headOk then Try(OK, Use, true) else Try(Unknown, if h.gone then Evict else CoolBriefly, true)
    else if h.gone then Try(Unavailable, Evict, false)
    else if h.accept.Refused? then Try(Unavailable, CoolBriefly, false)
    else Try(Failed, Evict, false)
  }

  /** A session's reservation and the stream of the attempt. */
  class Attempt {
    var active: int
    var streamOpen: bool

    constructor (active: int)
      ensures this.active == active && !streamOpen
    {
      this.active, streamOpen := active, false;
    }

    method Fail(o: Outcome, then_: After, head: bool) returns (t: Try)
      modifies this
      ensures t == Try(o, then_, head) && active == old(active) - 1 && !streamOpen
    {
      active, streamOpen := active - 1, false;
      t := Try(o, then_, head);
    }

    /** `tryAgent`, begun at `now`: on every outcome but OK the reservation is released and the stream closed. Open and
        accept together are waited for no longer than `wait`, and the last wait ends at `ended`. */
    method TryAgent(v2: bool, h: Happens, now: int, wait: nat, acceptWait: nat) returns (t: Try, ended: int)
      requires !streamOpen
      modifies this
      ensures t == Outcomes(v2, h, wait, acceptWait)
      ensures if t.outcome == OK then active == old(active) && streamOpen else active == old(active) - 1 && !streamOpen
      ensures ended == now + h.Waited(v2, wait) + h.Lag(v2, wait) && h.Waited(v2, wait) <= wait
    {
      AttemptTakes(v2, h, wait);
      ended := now + h.delays.toStart;
      var end := ended + wait;
      ended := ended + h.delays.toOpen + h.OpenWait(wait);
      var late := h.TimedOut(wait);
      if h.open.OpenRetired? || (h.open.OpenGoAway? && !late) { t := Fail(Unavailable, Retire, false); return; }
      if (!h.open.Opened? || late) && h.gone { t := Fail(Unavailable, Evict, false); return; }
      if late { t := Fail(Failed, LeaveBe, false); return; }
      if h.open.OpenBlocked? { t := Fail(Failed, CoolLong, false); return; }
      if h.open.OpenFailed? { t := Fail(Failed, Evict, false); return; }
      streamOpen := true;
      if !v2 {
        if !h.preambleOk {
          if h.gone { t := Fail(Unavailable, Evict, false); return; }
          t := Fail(if h.reset then Unavailable else Failed, CoolBriefly, false);
          return;
        }
        return Try(OK, Use, false), ended;
      }
      ended := ended + h.delays.toWindow;
      var window := end - ended;
      ended := ended + h.delays.toAccept + Min(h.accepting, Max(0, window));
      if h.accepting > Max(0, window) || !h.accept.Accepted? {
        if h.gone { t := Fail(Unavailable, Evict, false); return; }
        if h.accepting <= Max(0, window) && h.accept.Refused? { t := Fail(Unavailable, CoolBriefly, false); return; }
        if h.accepting <= Max(0, window) && h.accept.WrongByte? { t := Fail(Failed, Evict, false); return; }
        t := Fail(Failed, if window >= acceptWait / 2 then CoolLong else LeaveBe, false);
        return;
      }
      if !h.headOk { t := Fail(Unknown, if h.gone then Evict else CoolBriefly, true); return; }
      return Try(OK, Use, true), ended;
    }
  }

  /** Open and accept together are waited for no longer than the attempt may take, however slow the rest is. */
  lemma AttemptTakes(v2: bool, h: Happens, wait: nat)
    ensures h.Waited(v2, wait) <= wait
  {}

  function Total(v2: bool, d: Delays): nat { d.toStart + d.toOpen + if v2 then d.toWindow + d.toAccept else 0 }

  /** When an attempt asked for at `asked` ends by the deadline whatever the agent does: exactly if `wait` leaves
      room for the time that passes outside its waits. An attempt that gets all the time left can pass the deadline
      by just that. */
  lemma EndsInTime(v2: bool, d: Delays, asked: int, wait: nat, deadline: int)
    ensures (forall h: Happens | h.delays == d :: asked + h.Waited(v2, wait) + h.Lag(v2, wait) <= deadline)
      <==> asked + wait + Total(v2, d) <= deadline
  {
    var slow := Happens(Opened, wait, false, true, false, Accepted, 0, true, d);
    assert slow.Waited(v2, wait) == wait && slow.Lag(v2, wait) == Total(v2, d);
    forall h: Happens | h.delays == d ensures h.Waited(v2, wait) <= wait && h.Lag(v2, wait) <= Total(v2, d) {
      AttemptTakes(v2, h, wait);
    }
  }

  /** A head was written only where the attempt ends the search. */
  lemma HeadEndsSearch(v2: bool, h: Happens, wait: nat, acceptWait: nat)
    ensures var t := Outcomes(v2, h, wait, acceptWait);
      && (t.head ==> v2 && (t.outcome == OK || t.outcome == Unknown))
      && (t.outcome == Unknown ==> t.head && h.accept.Accepted?)
      && (t.outcome == OK ==> h.open.Opened? && (if v2 then t.head else h.preambleOk))
  {}

  /** The session turned out to be gone when the attempt failed. */
  predicate FoundClosed(v2: bool, h: Happens, wait: nat) { h.gone && !Delivered(v2, h, wait) }

  /** The stream was opened and, by a version 2 agent, accepted in time; by a version 1 agent, its preamble taken. */
  predicate Delivered(v2: bool, h: Happens, wait: nat) {
    h.open.Opened? && h.opening <= wait && if v2 then Said(h, wait, Accepted) else h.preambleOk
  }

  /** The stream was opened, and the agent's answer came in time. */
  predicate Said(h: Happens, wait: nat, a: Acceptance) {
    && h.open.Opened? && h.opening <= wait && h.accept == a && a != Broken
    && (h.accepting == 0 || h.delays.toOpen + h.opening + h.delays.toWindow + h.accepting <= wait)
  }

  /** There is no agent there to take the request: it is draining, gone, or refused the stream. */
  predicate Declines(v2: bool, h: Happens, wait: nat) {
    || h.open.OpenRetired?
    || (h.open.OpenGoAway? && h.opening <= wait)
    || FoundClosed(v2, h, wait)
    || (v2 && Said(h, wait, Refused))
    || (!v2 && h.open.Opened? && h.opening <= wait && !h.preambleOk && h.reset)
  }

  /** What an outcome means. The attempt succeeds exactly if the request was delivered and, to a version 2 agent, sent;
      it is unknown exactly if the agent accepted and the sending failed; it found no agent exactly if the agent was
      draining, gone or refusing; anything else is a failure. */
  lemma OutcomeMeans(v2: bool, h: Happens, wait: nat, acceptWait: nat)
    ensures var o := Outcomes(v2, h, wait, acceptWait).outcome;
      && (o == OK <==> Delivered(v2, h, wait) && (v2 ==> h.headOk))
      && (o == Unknown <==> v2 && Delivered(v2, h, wait) && !h.headOk)
      && (o == Unavailable <==> Declines(v2, h, wait))
      && (o == Failed <==> !Delivered(v2, h, wait) && !Declines(v2, h, wait))
  {}

  /** The stream was opened in time, and then nothing came of it: no answer by the end of the window, or a broken
      read. */
  predicate Silent(v2: bool, h: Happens, wait: nat) {
    v2 && h.open.Opened? && h.opening <= wait && forall a: Acceptance :: !Said(h, wait, a)
  }

  predicate Unusable(v2: bool, h: Happens, wait: nat) {
    || FoundClosed(v2, h, wait)
    || (h.open.OpenFailed? && h.opening <= wait)
    || (v2 && Said(h, wait, WrongByte))
    || (v2 && Said(h, wait, Accepted) && !h.headOk && h.gone)
  }

  predicate Stalled(v2: bool, h: Happens, wait: nat, acceptWait: nat) {
    !h.gone && (h.open.OpenBlocked? || (Silent(v2, h, wait) && h.Window(wait) >= acceptWait / 2))
  }

  predicate Hiccup(v2: bool, h: Happens, wait: nat) {
    && !h.gone && h.open.Opened? && h.opening <= wait
    && if v2 then Said(h, wait, Refused) || (Said(h, wait, Accepted) && !h.headOk) else !h.preambleOk
  }

  /** What becomes of the session: a draining one is retired; a closed one, one whose opens fail and one that breaks the
      protocol is closed; one that is stalled is left out of picks for long, and one that refused or broke a stream for
      a moment; and any other is left alone: one that had too little time to answer, or one whose open timed out, which
      has been left out already. */
  lemma SessionAfter(v2: bool, h: Happens, wait: nat, acceptWait: nat)
    ensures var a := Outcomes(v2, h, wait, acceptWait).after;
      && (a == Retire <==> h.open.OpenRetired? || (h.open.OpenGoAway? && h.opening <= wait))
      && (a == Evict <==> a != Retire && Unusable(v2, h, wait))
      && (a == Use <==> Delivered(v2, h, wait) && (v2 ==> h.headOk))
      && (a == CoolLong <==> Stalled(v2, h, wait, acceptWait))
      && (a == CoolBriefly <==> Hiccup(v2, h, wait))
  {
    assert Silent(v2, h, wait) <==> v2 && h.open.Opened? && h.opening <= wait && !Said(h, wait, h.accept);
  }

  // ---- One round ----

  /** The world during a round: all sessions there will be, the clock at each reading, the live sessions at each look,
      which of the untried ones a pick takes, what happens in each attempt, and which sessions speak version 2 or are
      cooling down when attempted. */
  datatype World = World(universe: set<Session>, clock: nat -> int, looks: nat -> seq<Session>, choose: nat -> nat,
                         happens: nat -> Happens, v2: Session -> bool, cooling: nat -> bool, acceptWait: Duration,
                         preambleFits: bool)

  type Duration = d: int | d > 0 witness 1

  /** The live sessions at look `k`. */
  function Live(w: World, k: nat): (r: seq<Session>)
    ensures forall c <- r :: c in w.universe
  {
    Within(w.looks(k), w.universe)
  }

  function Within(s: seq<Session>, u: set<Session>): (r: seq<Session>)
    ensures forall c <- r :: c in u
  {
    if s == [] then [] else (if s[0] in u then [s[0]] else []) + Within(s[1..], u)
  }

  /** No session that is live at a look is left out of it. */
  lemma {:induction false} LiveIsAll(s: seq<Session>, u: set<Session>, c: Session)
    ensures c in Within(s, u) <==> c in s && c in u
  {
    if s != [] {
      LiveIsAll(s[1..], u, c);
      assert s == [s[0]] + s[1..];
    }
  }

  /** When an attempt was decided on, how long it might wait, when its last wait ended, and the time outside its
      waits. */
  datatype Timing = Timing(asked: int, wait: int, ended: int, lag: nat)

  datatype Step =
    | Refreshed                                                        // sessions that joined since are listed
    | Tried(c: Session, outcome: Outcome, head: bool, time: Timing, v2: bool, h: Happens)
  datatype End = Handed(c: Session) | NoSession | NoAgent | StreamError | SendError | PreambleError

  /** The variables of the loop, and how often the world has been asked. */
  datatype Loop = Loop(cands: seq<Session>, tried: set<Session>, attempts: nat, unavailable: nat, readings: nat,
                       looks: nat)

  function Untried(s: seq<Session>, tried: set<Session>): (r: seq<Session>)
    ensures forall c :: c in r <==> c in s && c !in tried
  {
    if s == [] then [] else (if s[0] in tried then [] else [s[0]]) + Untried(s[1..], tried)
  }

  function Pick(w: World, l: Loop): (c: Session)
    requires Untried(l.cands, l.tried) != []
    ensures c in l.cands && c !in l.tried
  {
    var u := Untried(l.cands, l.tried);
    assert u[w.choose(l.attempts) % |u|] in u;
    u[w.choose(l.attempts) % |u|]
  }

  /** Whichever untried session the pick settles on, a world has it. */
  lemma AnyMayBePicked(w: World, l: Loop, c: Session) returns (k: nat)
    requires c in l.cands && c !in l.tried
    ensures Pick(w.(choose := (_: nat) => k), l) == c
  {
    var u := Untried(l.cands, l.tried);
    k :| k < |u| && u[k] == c;
    SmallMod(k, |u|);
  }

  lemma SmallMod(k: nat, n: nat)
    requires k < n
    ensures k % n == k
  {}

  /** The sessions that have joined since, looked up before an attempt with none left after it; not before the first
      one. */
  function LateJoiners(w: World, l: Loop, c: Session): (r: seq<Session>)
    ensures forall x <- r :: x in w.universe
  {
    if Looks(w, l, c) then Untried(Live(w, l.looks), l.tried + {c}) else []
  }

  predicate Looks(w: World, l: Loop, c: Session) {
    !w.cooling(l.attempts) && Untried(l.cands, l.tried + {c}) == [] && l.attempts > 0
  }

  /** The loop after an attempt on `c`. */
  function Attempted(w: World, l: Loop, c: Session): Loop {
    Loop(l.cands + LateJoiners(w, l, c), l.tried + {c}, l.attempts + 1, l.unavailable, l.readings + 1,
         if Looks(w, l, c) then l.looks + 1 else l.looks)
  }

  /** How long it may take: the time left only if there is nothing else to save time for. */
  function AttemptWait(w: World, l: Loop, c: Session, wait: Duration): Duration {
    if w.cooling(l.attempts) || Untried(l.cands, l.tried + {c}) != [] || LateJoiners(w, l, c) != []
    then Min(wait, w.acceptWait)
    else wait
  }

  function Left(l: Loop): nat { if Untried(l.cands, l.tried) != [] then 0 else 1 }

  ghost predicate Sound(w: World, l: Loop) {
    && l.tried <= w.universe && (forall c :: c in l.cands ==> c in w.universe)
    && l.unavailable <= l.attempts
  }

  /** The sessions still to come. */
  ghost function Ahead(w: World, l: Loop): nat { |w.universe - l.tried| }

  lemma TriedShrinks(w: World, l: Loop, c: Session)
    requires c in w.universe && c !in l.tried
    ensures |w.universe - (l.tried + {c})| < |w.universe - l.tried|
  {
    assert w.universe - (l.tried + {c}) == (w.universe - l.tried) - {c};
    assert c in w.universe - l.tried;
  }

  lemma AttemptedSound(w: World, l: Loop, c: Session)
    requires Sound(w, l) && c in l.cands && c !in l.tried
    ensures Sound(w, Attempted(w, l, c)) && Ahead(w, Attempted(w, l, c)) < Ahead(w, l)
  {
    TriedShrinks(w, l, c);
  }

  /** What one turn of the loop comes to. */
  datatype Turned = Stops(end: End) | Ends(step: Step, end: End) | GoesOn(step: Step, next: Loop)

  function TurnOf(w: World, l: Loop, deadline: int): Turned {
    if deadline - w.clock(l.readings) > 0 && Untried(l.cands, l.tried) != [] then AttemptTurn(w, l, deadline)
    else LookTurn(w, l, deadline)
  }

  function AttemptTurn(w: World, l: Loop, deadline: int): Turned
    requires Untried(l.cands, l.tried) != [] && deadline - w.clock(l.readings) > 0
  {
    var c, asked, h := Pick(w, l), w.clock(l.readings), w.happens(l.attempts);
    var wait := AttemptWait(w, l, c, deadline - asked);
    var t, time := Outcomes(w.v2(c), h, wait, w.acceptWait), Timed(w.v2(c), h, asked, wait);
    Concluded(Attempted(w, l, c), c, t, time, w.v2(c), h)
  }

  function Timed(v2: bool, h: Happens, asked: int, wait: nat): Timing {
    Timing(asked, wait, asked + h.Waited(v2, wait) + h.Lag(v2, wait), h.Lag(v2, wait))
  }

  /** What an attempt's outcome makes of the loop. */
  function Concluded(l: Loop, c: Session, t: Try, time: Timing, v2: bool, h: Happens): Turned {
    var step := Tried(c, t.outcome, t.head, time, v2, h);
    match t.outcome
    case OK => Ends(step, Handed(c))
    case Unknown => Ends(step, SendError)
    case Unavailable => GoesOn(step, l.(unavailable := l.unavailable + 1))
    case Failed => GoesOn(step, l)
  }

  function LookTurn(w: World, l: Loop, deadline: int): Turned {
    var joined := Untried(Live(w, l.looks), l.tried);
    if deadline - w.clock(l.readings) > 0 && joined != [] then GoesOn(Refreshed, Refresh(l, joined))
    else Stops(if l.unavailable == l.attempts then NoAgent else StreamError)
  }

  ghost predicate Before(w: World, l: Loop, l': Loop) {
    Ahead(w, l) < Ahead(w, l') || (Ahead(w, l) == Ahead(w, l') && Left(l) < Left(l'))
  }

  lemma AttemptTurnSound(w: World, l: Loop, deadline: int)
    requires Sound(w, l) && Untried(l.cands, l.tried) != [] && deadline - w.clock(l.readings) > 0
    ensures var t := AttemptTurn(w, l, deadline); t.GoesOn? ==> Sound(w, t.next) && Before(w, t.next, l)
  {
    AttemptedSound(w, l, Pick(w, l));
  }

  lemma LookTurnSound(w: World, l: Loop, deadline: int)
    requires Sound(w, l) && (deadline - w.clock(l.readings) > 0 ==> Untried(l.cands, l.tried) == [])
    ensures var t := LookTurn(w, l, deadline);
      t.GoesOn? ==>
        && Sound(w, t.next) && Before(w, t.next, l)
        && t.next.tried == l.tried && Untried(t.next.cands, t.next.tried) != []
  {
    var joined := Untried(Live(w, l.looks), l.tried);
    if joined != [] { assert joined[0] in Untried(joined, l.tried); }
  }

  lemma TurnSound(w: World, l: Loop, deadline: int)
    requires Sound(w, l)
    ensures var t := TurnOf(w, l, deadline); t.GoesOn? ==> Sound(w, t.next) && Before(w, t.next, l)
  {
    if deadline - w.clock(l.readings) > 0 && Untried(l.cands, l.tried) != [] {
      AttemptTurnSound(w, l, deadline);
    } else {
      LookTurnSound(w, l, deadline);
    }
  }

  /** The rest of a round: its steps and how it ends. */
  ghost function Rest(w: World, l: Loop, deadline: int): (r: (seq<Step>, End))
    requires Sound(w, l)
    decreases Ahead(w, l), Left(l)
  {
    TurnSound(w, l, deadline);
    match TurnOf(w, l, deadline)
    case Stops(e) => ([], e)
    case Ends(s, e) => ([s], e)
    case GoesOn(s, l') => Then(s, Rest(w, l', deadline))
  }

  function Then(s: Step, r: (seq<Step>, End)): (seq<Step>, End) { ([s] + r.0, r.1) }

  function Behind(ss: seq<Step>, r: (seq<Step>, End)): (seq<Step>, End) { (ss + r.0, r.1) }

  lemma BehindThen(ss: seq<Step>, s: Step, r: (seq<Step>, End))
    ensures Behind(ss, Then(s, r)) == Behind(ss + [s], r)
    ensures Behind([], r) == r && Behind(ss, ([], r.1)) == (ss, r.1) && Behind(ss, ([s], r.1)) == (ss + [s], r.1)
  {
    assert ss + ([s] + r.0) == (ss + [s]) + r.0;
    assert [] + r.0 == r.0 && ss + [] == ss;
  }

  function Refresh(l: Loop, joined: seq<Session>): Loop {
    l.(cands := joined, readings := l.readings + 1, looks := l.looks + 1)
  }

  function First(w: World): Loop { Loop(Live(w, 0), {}, 0, 0, 1, 1) }

  function Deadline(w: World): int { w.clock(0) + 2 * w.acceptWait }

  /** A whole round. */
  ghost function Round(w: World): (seq<Step>, End)
  {
    if Live(w, 0) == [] then ([], NoSession)
    else if !w.preambleFits then ([], PreambleError)
    else Rest(w, First(w), Deadline(w))
  }

  /** One turn of the loop. */
  method Turn(w: World, l: Loop, deadline: int) returns (t: Turned)
    ensures t == TurnOf(w, l, deadline)
  {
    var asked := w.clock(l.readings);
    var wait := deadline - asked;
    if wait > 0 && Untried(l.cands, l.tried) == [] {
      var joined := Untried(Live(w, l.looks), l.tried);
      if joined != [] { return GoesOn(Refreshed, Refresh(l, joined)); }
    }
    if wait <= 0 || Untried(l.cands, l.tried) == [] {
      return Stops(if l.unavailable == l.attempts then NoAgent else StreamError);
    }
    var c := Pick(w, l);
    var attemptWait, cands, looks := Min(wait, w.acceptWait), l.cands, l.looks;
    var tried := l.tried + {c};
    if !w.cooling(l.attempts) && Untried(cands, tried) == [] {
      var joined: seq<Session> := [];
      if l.attempts > 0 { joined, looks := Untried(Live(w, looks), tried), looks + 1; }
      if joined != [] { cands := cands + joined; } else { attemptWait := wait; }
    }
    assert l.cands + [] == l.cands;
    var l' := Loop(cands, tried, l.attempts + 1, l.unavailable, l.readings + 1, looks);
    assert l' == Attempted(w, l, c) && attemptWait == AttemptWait(w, l, c, wait);
    var h := w.happens(l.attempts);
    var o := Outcomes(w.v2(c), h, attemptWait, w.acceptWait);
    var step := Tried(c, o.outcome, o.head, Timed(w.v2(c), h, asked, attemptWait), w.v2(c), h);
    match o.outcome
    case OK => t := Ends(step, Handed(c));
    case Unknown => t := Ends(step, SendError);
    case Unavailable => t := GoesOn(step, l'.(unavailable := l'.unavailable + 1));
    case Failed => t := GoesOn(step, l');
  }

  /** `dispatchOnce`. */
  method DispatchOnce(w: World) returns (steps: seq<Step>, end: End)
    ensures (steps, end) == Round(w)
  {
    steps := [];
    var l := First(w);
    if l.cands == [] { return [], NoSession; }
    if !w.preambleFits { return [], PreambleError; }
    var deadline := Deadline(w);
    BehindThen([], Refreshed, Rest(w, l, deadline));
    while true
      invariant Sound(w, l)
      invariant Round(w) == Behind(steps, Rest(w, l, deadline))
      decreases Ahead(w, l), Left(l)
    {
      TurnSound(w, l, deadline);
      Advance(w, l, deadline, steps);
      var t := Turn(w, l, deadline);
      match t
      case Stops(e) => return steps, e;
      case Ends(s, e) => return steps + [s], e;
      case GoesOn(s, l') => steps, l := steps + [s], l';
    }
  }

  /** A turn's step is the next of the round. */
  lemma Advance(w: World, l: Loop, deadline: int, steps: seq<Step>)
    requires Sound(w, l)
    ensures var t, all := TurnOf(w, l, deadline), Behind(steps, Rest(w, l, deadline));
      match t
      case Stops(e) => all == (steps, e)
      case Ends(s, e) => all == (steps + [s], e)
      case GoesOn(s, l') => Sound(w, l') && all == Behind(steps + [s], Rest(w, l', deadline))
  {
    TurnSound(w, l, deadline);
    match TurnOf(w, l, deadline)
    case Stops(e) => assert steps + [] == steps;
    case Ends(s, e) =>
    case GoesOn(s, l') => BehindThen(steps, s, Rest(w, l', deadline));
  }

  // ---- What a round guarantees ----

  /** Attempts go to distinct sessions, none tried before. */
  ghost predicate Distinct(ss: seq<Step>, tried: set<Session>) {
    && (forall i :: 0 <= i < |ss| && ss[i].Tried? ==> ss[i].c !in tried)
    && (forall i, j :: 0 <= i < j < |ss| && ss[i].Tried? && ss[j].Tried? ==> ss[i].c != ss[j].c)
  }

  /** An attempt that may have given the agent the request. */
  predicate Handing(s: Step) { s.Tried? && (s.outcome == OK || s.outcome == Unknown) }

  /** Only the last step can be one, and it is exactly when the round ends with it. */
  ghost predicate OnlyLast(ss: seq<Step>, e: End) {
    && (forall i :: 0 <= i < |ss| - 1 ==> !Handing(ss[i]))
    && (forall i :: 0 <= i < |ss| && ss[i].Tried? && ss[i].head ==> Handing(ss[i]))
    && (e.Handed? <==> ss != [] && ss[|ss| - 1].Tried? && ss[|ss| - 1].outcome == OK)
    && (e.Handed? ==> e.c == ss[|ss| - 1].c)
    && (e.SendError? <==> ss != [] && ss[|ss| - 1].Tried? && ss[|ss| - 1].outcome == Unknown)
  }

  predicate Wanting(s: Step) { s.Tried? ==> s.outcome == Unavailable }

  /** `noAgentWhy` exactly when no attempt got through and all found their agent unavailable; a stream error
      otherwise. */
  ghost predicate Reasons(ss: seq<Step>, e: End, wantingSoFar: bool) {
    && !e.NoSession? && !e.PreambleError?
    && (e.NoAgent? <==> wantingSoFar && forall i :: 0 <= i < |ss| ==> Wanting(ss[i]))
    && (e.StreamError? <==> !e.Handed? && !e.SendError? && !e.NoAgent?)
  }

  /** An attempt is given no more than the time left, and its last wait ends no later than that and the time outside its
      waits: past the deadline by that much at most. */
  ghost predicate WellTimed(t: Timing, deadline: int) {
    0 < t.wait <= deadline - t.asked && t.asked <= t.ended <= t.asked + t.wait + t.lag <= deadline + t.lag
  }

  ghost predicate Timely(ss: seq<Step>, deadline: int) {
    forall i :: 0 <= i < |ss| && ss[i].Tried? ==> WellTimed(ss[i].time, deadline)
  }

  /** Step `i` was decided at reading `reading + i` of the clock. A refresh is followed by an attempt if the next
      reading is still before the deadline, and is the last step if it is not. */
  ghost predicate RefreshAt(w: World, ss: seq<Step>, i: nat, reading: nat, deadline: int)
    requires i < |ss|
  {
    ss[i].Refreshed? ==>
      if w.clock(reading + i + 1) < deadline then i + 1 < |ss| && ss[i + 1].Tried? else i + 1 == |ss|
  }

  ghost predicate Refreshes(w: World, ss: seq<Step>, reading: nat, deadline: int) {
    forall i: nat :: i < |ss| ==> RefreshAt(w, ss, i, reading, deadline)
  }

  ghost predicate Good(w: World, l: Loop, deadline: int, r: (seq<Step>, End)) {
    && Distinct(r.0, l.tried) && OnlyLast(r.0, r.1) && Reasons(r.0, r.1, l.unavailable == l.attempts)
    && Timely(r.0, deadline) && Refreshes(w, r.0, l.readings, deadline) && AllTold(r.0)
  }

  lemma RefreshesThen(w: World, s: Step, ss: seq<Step>, reading: nat, deadline: int)
    requires Refreshes(w, ss, reading + 1, deadline)
    requires s.Refreshed? ==> if w.clock(reading + 1) < deadline then ss != [] && ss[0].Tried? else ss == []
    ensures Refreshes(w, [s] + ss, reading, deadline)
  {
    var t := [s] + ss;
    forall i: nat | i < |t| ensures RefreshAt(w, t, i, reading, deadline) {
      if i > 0 {
        assert RefreshAt(w, ss, i - 1, reading + 1, deadline);
        assert (reading + 1) + (i - 1) + 1 == reading + i + 1;
      }
    }
  }

  lemma DistinctThen(s: Step, ss: seq<Step>, tried: set<Session>)
    requires Distinct(ss, if s.Tried? then tried + {s.c} else tried) && (s.Tried? ==> s.c !in tried)
    ensures Distinct([s] + ss, tried)
  {
    var t := [s] + ss;
    assert forall i :: 0 < i < |t| ==> t[i] == ss[i - 1];
  }

  lemma OnlyLastThen(s: Step, ss: seq<Step>, e: End)
    requires OnlyLast(ss, e) && !Handing(s) && (s.Tried? ==> !s.head)
    ensures OnlyLast([s] + ss, e)
  {
    var t := [s] + ss;
    assert forall i :: 0 < i < |t| ==> t[i] == ss[i - 1];
    assert t[0] == s && (ss != [] ==> t[|t| - 1] == ss[|ss| - 1]);
  }

  lemma ReasonsThen(s: Step, ss: seq<Step>, e: End, wanting: bool)
    requires Reasons(ss, e, wanting && Wanting(s))
    ensures Reasons([s] + ss, e, wanting)
  {
    var t := [s] + ss;
    assert t[0] == s && forall i :: 0 <= i < |ss| ==> ss[i] == t[i + 1];
    assert forall i :: 0 < i < |t| ==> t[i] == ss[i - 1];
  }

  /** What each attempt's outcome says of what happened in it. */
  ghost predicate Told(s: Step) {
    s.Tried? ==>
      && s.time.wait >= 0
      && (s.outcome == OK <==> Delivered(s.v2, s.h, s.time.wait) && (s.v2 ==> s.h.headOk))
      && (s.outcome == Unknown <==> s.v2 && Delivered(s.v2, s.h, s.time.wait) && !s.h.headOk)
      && (s.outcome == Unavailable <==> Declines(s.v2, s.h, s.time.wait))
  }

  ghost predicate AllTold(ss: seq<Step>) { forall i :: 0 <= i < |ss| ==> Told(ss[i]) }

  lemma TimelyThen(s: Step, ss: seq<Step>, deadline: int)
    requires Timely(ss, deadline) && (s.Tried? ==> WellTimed(s.time, deadline))
    ensures Timely([s] + ss, deadline)
  {
    var t := [s] + ss;
    assert forall i :: 0 < i < |t| ==> t[i] == ss[i - 1];
  }

  /** What a turn that goes on does: nothing is handed over, a session not tried before is tried, or joined ones
      listed. */
  ghost predicate GoesOnWell(l: Loop, s: Step, l': Loop, deadline: int) {
    && !Handing(s) && l'.readings == l.readings + 1
    && (s.Tried? ==>
          !s.head && s.c !in l.tried && l'.tried == l.tried + {s.c} && WellTimed(s.time, deadline) && Told(s))
    && (s.Refreshed? ==> l'.tried == l.tried && Untried(l'.cands, l'.tried) != [])
    && (l'.unavailable == l'.attempts) == (l.unavailable == l.attempts && Wanting(s))
  }

  ghost predicate EndsWell(l: Loop, s: Step, e: End, deadline: int) {
    && s.Tried? && s.c !in l.tried && WellTimed(s.time, deadline) && Told(s)
    && ((s.outcome == OK && e == Handed(s.c)) || (s.outcome == Unknown && e == SendError))
  }

  /** With a session left to try a turn is an attempt, unless time has run out. */
  ghost predicate StartsWell(w: World, l: Loop, t: Turned, deadline: int) {
    Untried(l.cands, l.tried) != [] ==> if w.clock(l.readings) < deadline then !t.Stops? && t.step.Tried? else t.Stops?
  }

  lemma TurnGood(w: World, l: Loop, deadline: int)
    requires Sound(w, l)
    ensures var t := TurnOf(w, l, deadline);
      && StartsWell(w, l, t, deadline)
      && match t
         case Stops(e) => e == if l.unavailable == l.attempts then NoAgent else StreamError
         case Ends(s, e) => EndsWell(l, s, e, deadline)
         case GoesOn(s, l') => GoesOnWell(l, s, l', deadline)
  {
    if deadline - w.clock(l.readings) > 0 && Untried(l.cands, l.tried) != [] {
      AttemptTurnGood(w, l, deadline);
    } else {
      LookTurnSound(w, l, deadline);
    }
  }

  lemma AttemptTurnGood(w: World, l: Loop, deadline: int)
    requires Sound(w, l) && deadline - w.clock(l.readings) > 0 && Untried(l.cands, l.tried) != []
    ensures match AttemptTurn(w, l, deadline)
            case Stops(e) => false
            case Ends(s, e) => EndsWell(l, s, e, deadline)
            case GoesOn(s, l') => s.Tried? && GoesOnWell(l, s, l', deadline)
  {
    var c, h, asked := Pick(w, l), w.happens(l.attempts), w.clock(l.readings);
    var wait := AttemptWait(w, l, c, deadline - asked);
    HeadEndsSearch(w.v2(c), h, wait, w.acceptWait);
    AttemptTakes(w.v2(c), h, wait);
    var t := Outcomes(w.v2(c), h, wait, w.acceptWait);
    OutcomeMeans(w.v2(c), h, wait, w.acceptWait);
    ConcludedGood(l, Attempted(w, l, c), c, t, Timed(w.v2(c), h, asked, wait), w.v2(c), h, deadline);
  }

  lemma ConcludedGood(l: Loop, l': Loop, c: Session, t: Try, time: Timing, v2: bool, h: Happens, deadline: int)
    requires c !in l.tried && l'.tried == l.tried + {c} && l'.readings == l.readings + 1 && WellTimed(time, deadline)
    requires l.unavailable <= l.attempts && l'.attempts == l.attempts + 1 && l'.unavailable == l.unavailable
    requires (t.head ==> t.outcome == OK || t.outcome == Unknown) && Told(Tried(c, t.outcome, t.head, time, v2, h))
    ensures match Concluded(l', c, t, time, v2, h)
            case Stops(e) => false
            case Ends(s, e) => EndsWell(l, s, e, deadline)
            case GoesOn(s, l'') => s.Tried? && GoesOnWell(l, s, l'', deadline)
  {}

  /** A step that hands nothing over, before the rest of a good round. */
  lemma GoodThen(w: World, l: Loop, l': Loop, deadline: int, s: Step, r: (seq<Step>, End))
    requires Good(w, l', deadline, r) && GoesOnWell(l, s, l', deadline)
    requires s.Refreshed? ==> if w.clock(l.readings + 1) < deadline then r.0 != [] && r.0[0].Tried? else r.0 == []
    ensures Good(w, l, deadline, Then(s, r))
  {
    DistinctThen(s, r.0, l.tried);
    OnlyLastThen(s, r.0, r.1);
    ReasonsThen(s, r.0, r.1, l.unavailable == l.attempts);
    TimelyThen(s, r.0, deadline);
    RefreshesThen(w, s, r.0, l.readings, deadline);
  }

  /** The attempt that ends a round. */
  lemma LastGood(w: World, l: Loop, deadline: int, s: Step, e: End)
    requires EndsWell(l, s, e, deadline)
    ensures Good(w, l, deadline, ([s], e))
  {
    assert !Wanting([s][0]);
  }

  /** A refresh is followed by an attempt, or by nothing when time has run out. */
  lemma AfterRefresh(w: World, l: Loop, deadline: int)
    requires Sound(w, l) && Untried(l.cands, l.tried) != []
    ensures var ss := Rest(w, l, deadline).0;
      if w.clock(l.readings) < deadline then ss != [] && ss[0].Tried? else ss == []
  {
    TurnGood(w, l, deadline);
  }

  lemma {:induction false} RestGood(w: World, l: Loop, deadline: int)
    requires Sound(w, l)
    ensures Good(w, l, deadline, Rest(w, l, deadline))
    decreases Ahead(w, l), Left(l)
  {
    TurnSound(w, l, deadline);
    TurnGood(w, l, deadline);
    match TurnOf(w, l, deadline)
    case Stops(e) =>
    case Ends(s, e) => LastGood(w, l, deadline, s, e);
    case GoesOn(s, l') =>
      RestGood(w, l', deadline);
      if s.Refreshed? { AfterRefresh(w, l', deadline); }
      GoodThen(w, l, l', deadline, s, Rest(w, l', deadline));
  }

  /** `RestGood` for a whole round. */
  lemma RoundGood(w: World)
    ensures var (ss, e) := Round(w);
      && Distinct(ss, {}) && OnlyLast(ss, e) && AllTold(ss)
      && Timely(ss, Deadline(w)) && Refreshes(w, ss, 1, Deadline(w))
      && (if e.NoSession? || e.PreambleError? then ss == [] else Reasons(ss, e, true))
  {
    if Live(w, 0) != [] && w.preambleFits { RestGood(w, First(w), Deadline(w)); }
  }

  // ---- Waiting for an agent ----

  datatype Wake = Joined | Tick | CallerGone | Stopping

  /** One turn of `dispatch`: the round's world, the time when the wait is looked at, and what ends the wait. */
  datatype Cycle = Cycle(w: World, now: int, wake: Wake)

  /** `Waiting`: the turns seen so far have not decided it. */
  datatype Answer = Stream(c: Session) | NoAgentAnswer | StreamFailed | Waiting

  type Rounds = seq<(seq<Step>, End)>

  function Until(until: Option<int>, agentWait: int, now: int): Option<int> {
    if until.None? && agentWait > 0 then Some(now + agentWait) else until
  }

  predicate MayWait(e: End) { e.NoSession? || e.NoAgent? }

  /** Whether another round follows one that may wait. */
  predicate Again(until: Option<int>, c: Cycle) {
    until.Some? && until.value - c.now > 0 && (c.wake.Joined? || c.wake.Tick?)
  }

  /** The answer of a turn whose round ended with `e`. */
  function Answered(e: End, until: Option<int>, c: Cycle): Answer {
    if e.Handed? then Stream(e.c)
    else if !MayWait(e) then StreamFailed
    else if Again(until, c) then Waiting
    else NoAgentAnswer
  }

  /** The wait runs from the first round that found no agent. Turn `i` is followed by another exactly if time is left
      then and a session joined or the timer fired. */
  predicate Retries(cs: seq<Cycle>, i: nat, agentWait: int)
    requires i < |cs|
  {
    agentWait > 0 && cs[i].now < cs[0].now + agentWait && (cs[i].wake.Joined? || cs[i].wake.Tick?)
  }

  /** A round follows exactly the rounds that may wait and whose turn goes on. */
  ghost predicate Waited(cs: seq<Cycle>, rounds: Rounds, answer: Answer, agentWait: int)
    requires |rounds| <= |cs|
  {
    && (forall i :: 0 <= i < |rounds| - 1 ==>
          (rounds[i].1.NoSession? || rounds[i].1.NoAgent?) && Retries(cs, i, agentWait))
    && (rounds != [] ==>
          var e := rounds[|rounds| - 1].1;
          answer == Waiting <==> (e.NoSession? || e.NoAgent?) && Retries(cs, |rounds| - 1, agentWait))
  }

  ghost predicate HandsNothing(r: (seq<Step>, End)) {
    forall k :: 0 <= k < |r.0| ==> Wanting(r.0[k]) && (r.0[k].Tried? ==> !r.0[k].head)
  }

  /** Over a whole dispatch the request is handed over at most once, and nothing is attempted after that: every round
      but the last only met unavailable agents and sent no head, and in the last only the last attempt can have sent
      it. The answer is that attempt's stream exactly if it succeeded; without an answer, or with `noAgent`, every
      attempt of every round met an unavailable agent. */
  ghost predicate AtMostOnce(rounds: Rounds, answer: Answer) {
    && (forall i :: 0 <= i < |rounds| - 1 ==> HandsNothing(rounds[i]))
    && (answer.Waiting? || answer.NoAgentAnswer? ==> forall i :: 0 <= i < |rounds| ==> HandsNothing(rounds[i]))
    && (rounds != [] ==> OnlyLast(rounds[|rounds| - 1].0, rounds[|rounds| - 1].1))
    && (answer.Stream? ==> rounds != [] && rounds[|rounds| - 1].1 == Handed(answer.c))
    && (rounds != [] && rounds[|rounds| - 1].1.Handed? ==> answer.Stream?)
    && (rounds != [] && rounds[|rounds| - 1].1.SendError? ==> answer.StreamFailed?)
  }

  lemma NextRound(rounds: Rounds, r: (seq<Step>, End), w: World, answer: Answer)
    requires r == Round(w)
    requires AtMostOnce(rounds, Waiting)
    requires answer == (if r.1.Handed? then Stream(r.1.c) else if !MayWait(r.1) then StreamFailed else answer)
    requires MayWait(r.1) ==> answer.Waiting? || answer.NoAgentAnswer?
    ensures AtMostOnce(rounds + [r], answer)
  {
    RoundGood(w);
    assert MayWait(r.1) ==> HandsNothing(r);
    assert forall i :: 0 <= i < |rounds| ==> (rounds + [r])[i] == rounds[i];
  }

  lemma WaitedNext(cs: seq<Cycle>, rounds: Rounds, r: (seq<Step>, End), until: Option<int>, until': Option<int>,
                   agentWait: int)
    requires |rounds| < |cs| && Waited(cs, rounds, Waiting, agentWait)
    requires until == if rounds == [] then None else Some(cs[0].now + agentWait)
    requires until' == if MayWait(r.1) then Until(until, agentWait, cs[|rounds|].now) else until
    ensures Waited(cs, rounds + [r], Answered(r.1, until', cs[|rounds|]), agentWait)
    ensures Answered(r.1, until', cs[|rounds|]) == Waiting ==> until' == Some(cs[0].now + agentWait)
  {
    var rs := rounds + [r];
    assert forall i :: 0 <= i < |rounds| ==> rs[i] == rounds[i];
  }

  ghost predicate RoundsOf(cs: seq<Cycle>, rounds: Rounds) {
    |rounds| <= |cs| && forall i :: 0 <= i < |rounds| ==> rounds[i] == Round(cs[i].w)
  }

  /** What the loop of `dispatch` keeps. */
  ghost predicate SoFar(cs: seq<Cycle>, rounds: Rounds, answer: Answer, until: Option<int>, agentWait: int) {
    && RoundsOf(cs, rounds) && AtMostOnce(rounds, answer) && Waited(cs, rounds, answer, agentWait)
    && (answer == Waiting ==> until == if rounds == [] then None else Some(cs[0].now + agentWait))
  }

  lemma OneMore(cs: seq<Cycle>, rounds: Rounds, until: Option<int>, agentWait: int)
    requires SoFar(cs, rounds, Waiting, until, agentWait) && |rounds| < |cs|
    ensures var c := cs[|rounds|];
      var r := Round(c.w);
      var until' := if MayWait(r.1) then Until(until, agentWait, c.now) else until;
      SoFar(cs, rounds + [r], Answered(r.1, until', c), until', agentWait)
  {
    var c := cs[|rounds|];
    var r := Round(c.w);
    var until' := if MayWait(r.1) then Until(until, agentWait, c.now) else until;
    WaitedNext(cs, rounds, r, until, until', agentWait);
    NextRound(rounds, r, c.w, Answered(r.1, until', c));
    OneMoreRound(cs, rounds);
  }

  lemma OneMoreRound(cs: seq<Cycle>, rounds: Rounds)
    requires RoundsOf(cs, rounds) && |rounds| < |cs|
    ensures RoundsOf(cs, rounds + [Round(cs[|rounds|].w)])
  {}

  /** `dispatch` over the first turns of a run, however long. */
  method Dispatch(cs: seq<Cycle>, agentWait: int) returns (rounds: Rounds, answer: Answer)
    ensures RoundsOf(cs, rounds) && (answer == Waiting ==> |rounds| == |cs|)
    ensures AtMostOnce(rounds, answer)
    ensures Waited(cs, rounds, answer, agentWait)
  {
    var until: Option<int> := None;
    rounds, answer := [], Waiting;
    while |rounds| < |cs| && answer == Waiting
      invariant SoFar(cs, rounds, answer, until, agentWait)
      decreases |cs| - |rounds|
    {
      OneMore(cs, rounds, until, agentWait);
      var c := cs[|rounds|];
      var steps, end := DispatchOnce(c.w);
      if MayWait(end) { until := Until(until, agentWait, c.now); }
      answer, rounds := Answered(end, until, c), rounds + [(steps, end)];
    }
  }

  /** With a clock that never goes back, at most one round begins once the wait has run out. */
  lemma OneLastTry(cs: seq<Cycle>, rounds: Rounds, answer: Answer, agentWait: int, i: nat)
    requires |rounds| <= |cs| && Waited(cs, rounds, answer, agentWait)
    requires forall j :: 0 <= j < |cs| ==> cs[j].w.clock(0) <= cs[j].now
    requires i < |rounds| && cs[i].w.clock(0) >= cs[0].now + agentWait
    ensures i == |rounds| - 1 && answer != Waiting
  {
    assert i < |rounds| - 1 ==> Retries(cs, i, agentWait);
  }
}

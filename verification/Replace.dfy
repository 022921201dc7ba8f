/** Replacing a running agent: the callback that runs when the edge has taken the agent out of its pool, and the
    handover to the new process, over every interleaving of reload signals, shutdown, the agent's own exit and the
    successors' deaths. */
module Replace {
  import opened Options

  // ---- The callback ----

  /** The calls made on an agent, in the order of its lock. */
  datatype Call = SetOnRetired | Retired

  /** `onRetired` by the number of the call that set it; `ran`: the callbacks run. */
  datatype Retirement = Retirement(onRetired: Option<nat>, done: bool, ran: seq<nat>)

  function Called(r: Retirement, c: Call, n: nat): Retirement {
    match c
    case SetOnRetired => if r.done then r else r.(onRetired := Some(n))
    case Retired =>
      if r.done then r else r.(done := true, ran := if r.onRetired.Some? then r.ran + [r.onRetired.value] else r.ran)
  }

  function After(cs: seq<Call>): Retirement {
    if cs == [] then Retirement(None, false, []) else Called(After(cs[..|cs| - 1]), cs[|cs| - 1], |cs| - 1)
  }

  class Agent {
    var onRetired: Option<nat>
    var retiredDone: bool
    var ran: seq<nat>

    ghost function View(): Retirement reads this { Retirement(onRetired, retiredDone, ran) }

    constructor ()
      ensures View() == After([])
    {
      onRetired, retiredDone, ran := None, false, [];
    }

    /** Whether the callback was accepted. */
    method SetOnRetiredTo(n: nat) returns (ok: bool)
      modifies this
      ensures View() == Called(old(View()), SetOnRetired, n) && ok == !old(retiredDone)
    {
      if retiredDone { return false; }
      onRetired := Some(n);
      return true;
    }

    method RetiredNow(ghost n: nat)
      modifies this
      ensures View() == Called(old(View()), Retired, n)
    {
      if retiredDone { return; }
      retiredDone := true;
      if onRetired.Some? { ran := ran + [onRetired.value]; }
    }
  }

  /** Call `i` sets a callback, call `r` is the first `retired`, and no call in between sets another. */
  ghost predicate LastBefore(cs: seq<Call>, i: nat, r: nat) {
    && i < r < |cs| && cs[i].SetOnRetired? && cs[r].Retired?
    && (forall j :: 0 <= j < r ==> !cs[j].Retired?)
    && (forall j :: i < j < r ==> !cs[j].SetOnRetired?)
  }

  ghost predicate Accepted(cs: seq<Call>, i: nat) {
    i < |cs| && cs[i].SetOnRetired? && forall j :: 0 <= j < i ==> !cs[j].Retired?
  }

  lemma {:induction false} AfterIs(cs: seq<Call>)
    ensures var s := After(cs);
      && (s.done <==> exists j :: 0 <= j < |cs| && cs[j].Retired?)
      && (!s.done ==> s.ran == [])
      && (!s.done && s.onRetired.Some? ==> s.onRetired.value < |cs| && cs[s.onRetired.value].SetOnRetired?
                                            && forall j :: s.onRetired.value < j < |cs| ==> !cs[j].SetOnRetired?)
      && (!s.done && s.onRetired.None? ==> forall j :: 0 <= j < |cs| ==> !cs[j].SetOnRetired?)
      && |s.ran| <= 1
  {
    if cs != [] {
      var cs' := cs[..|cs| - 1];
      AfterIs(cs');
      assert forall j :: 0 <= j < |cs'| ==> cs'[j] == cs[j];
    }
  }

  /** A callback runs at most once, and exactly if it is the last one set before the first `retired`: one accepted
      earlier is replaced and never runs. */
  lemma {:induction false} RunsExactlyTheLast(cs: seq<Call>, i: nat)
    ensures i in After(cs).ran <==> exists r :: LastBefore(cs, i, r)
    ensures |After(cs).ran| <= 1
  {
    AfterIs(cs);
    if cs != [] {
      var n := |cs| - 1;
      var cs' := cs[..n];
      RunsExactlyTheLast(cs', i);
      AfterIs(cs');
      assert forall j :: 0 <= j < n ==> cs'[j] == cs[j];
      if After(cs').done {
        forall r: nat | LastBefore(cs, i, r) ensures r < n { assert r == n ==> !After(cs').done; }
        forall r: nat | r < n ensures LastBefore(cs, i, r) <==> LastBefore(cs', i, r) {}
      } else {
        assert forall r: nat :: !LastBefore(cs', i, r);
        assert i in After(cs).ran <==> LastBefore(cs, i, n);
      }
    }
  }

  /** With a single accepted call, its callback runs exactly once if `retired` is called after it. */
  lemma LoneCallbackRuns(cs: seq<Call>, i: nat, r: nat)
    requires Accepted(cs, i) && i < r < |cs| && cs[r].Retired?
    requires forall j :: 0 <= j < |cs| && j != i ==> !Accepted(cs, j)
    ensures After(cs).ran == [i]
  {
    FirstRetired(cs, r);
    var f :| 0 <= f <= r && cs[f].Retired? && forall j :: 0 <= j < f ==> !cs[j].Retired?;
    forall j | i < j < f ensures !cs[j].SetOnRetired? { assert !Accepted(cs, j); }
    assert LastBefore(cs, i, f);
    RunsExactlyTheLast(cs, i);
  }

  lemma {:induction false} FirstRetired(cs: seq<Call>, r: nat)
    requires r < |cs| && cs[r].Retired?
    ensures exists f :: 0 <= f <= r && cs[f].Retired? && forall j :: 0 <= j < f ==> !cs[j].Retired?
  {
    if j :| 0 <= j < r && cs[j].Retired? { FirstRetired(cs, j); }
  }

  /** Not every accepted callback runs. */
  lemma ReplacedNeverRuns()
    ensures var cs := [SetOnRetired, SetOnRetired, Retired]; Accepted(cs, 0) && After(cs).ran == [1]
  {
    var cs := [SetOnRetired, SetOnRetired, Retired];
    assert Accepted(cs, 0);
    assert LastBefore(cs, 1, 2);
    RunsExactlyTheLast(cs, 1);
  }

  // ---- The handover ----

  type Id = nat  // one per reload signal

  /** Where a call of `replace` is. */
  datatype Phase =
    | Checking   // about to look at the agent's context
    | Claiming   // about to set `busy`
    | Spawning   // set it
    | Waiting    // started a successor, which is not yet prepared
    | Rechecking // prepared
    | Setting    // the agent was not shutting down
    | Aborting   // it was, or had stepped aside: the successor is stopped
    | Set        // its callback was accepted
    | Succeeded  // the shutdown is started, `replace` returned nil
    | Refused    // returned an error
  {
    predicate Busy() { Spawning? || Waiting? || Rechecking? || Setting? || Aborting? || Set? || Succeeded? }
    predicate Accepted() { Set? || Succeeded? }
  }

  /** What is visible outside, in order. */
  datatype Act = Ran(i: Id) | MainPid(i: Id) | GoAhead(i: Id)

  /** `NotYet`: `retiredDone` is not set. Then where the callback of the call that set it is. */
  datatype Hand = NotYet | Looking(i: Id) | Notifying(i: Id) | Going(i: Id) | Over

  /** `Run` and `connectOnce`. */
  datatype Main =
    | Top        // about to look at the context
    | Connecting
    | Accepting  // in the accept loop of a session
    | Joining    // the loop has ended (`mainStopped`): waits for `shutdownDone`
    | Back       // `connectOnce` has returned
    | Backoff
    | Leaving    // `Run` returns: its deferred `retired` is next
    | MainCalls  // runs the callback
    | Returned

  /** What `shutdownSession` does after `retired`. */
  datatype Onto = ToDrain | ToBacklog | ToEnd

  /** The goroutine that waits for the shutdown of one session. */
  datatype Shut =
    | NoSession
    | Selecting             // waits for the context or for `mainStopped`
    | Begun                 // in `shutdownSession`
    | Requesting            // waits for the drain acknowledgement
    | Retiring(next: Onto) // about to call `retired`
    | ShutCalls(next: Onto)// runs the callback
    | Backlog               // GoAway is sent and the accept loop told to stop
    | Draining
    | Finished              // `shutdownDone` is closed

  datatype Budget = NoDrain | Short | Long

  /** The agent's goroutines and its session: whether it is open, and its version. */
  datatype Proc = Proc(main: Main, shut: Shut, open: bool, v2: bool, budget: Budget)

  datatype State = State(calls: map<Id, Phase>, busy: bool, stopping: bool, onRetired: Option<Id>, hand: Hand,
                         failed: bool, acts: seq<Act>, spawned: seq<Id>, dead: set<Id>, proc: Proc, exit: Option<bool>)

  function Start(budget: Budget): State {
    State(map[], false, false, None, NotYet, false, [], [], {}, Proc(Top, NoSession, false, false, budget), None)
  }

  datatype Event =
    | Signal(i: Id)              // SIGHUP
    | Step(i: Id, ok: bool)      // `replace`; `ok`: the spawn, or the wait for the successor, went well
    | Terminate                  // SIGTERM
    | Dies(i: Id)                // a successor exits
    | SessionDies
    | MainStep(ok: bool, v2: bool) // `ok`: the connection came up with that version, or the back-off ran out
    | ShutStep(stop: bool)       // `stop`: the context was chosen, not `mainStopped`
    | HandStep(ok: bool)         // `handOver`; `ok`: systemd was told, or the go-ahead was written
    | Exit

  predicate MainEnabled(s: State, ok: bool) {
    match s.proc.main
    case Joining => s.proc.shut.Finished?
    case Backoff => ok || s.stopping
    case MainCalls => s.hand.Over?
    case Returned => false
    case _ => true
  }

  predicate ShutEnabled(s: State, stop: bool) {
    match s.proc.shut
    case NoSession => false
    case Selecting => if stop then s.stopping else s.proc.main.Joining?
    case ShutCalls(_) => s.hand.Over?
    case Backlog => s.proc.main.Joining? || !s.proc.open
    case Finished => false
    case _ => true
  }

  predicate Enabled(s: State, e: Event) {
    && s.exit.None?
    && match e
       case Signal(i) => i !in s.calls
       case Step(i, _) => i in s.calls && !s.calls[i].Succeeded? && !s.calls[i].Refused?
       case Terminate => true
       case Dies(_) => true
       case SessionDies => true
       case MainStep(ok, _) => MainEnabled(s, ok)
       case ShutStep(stop) => ShutEnabled(s, stop)
       case HandStep(_) => s.hand.Looking? || s.hand.Notifying? || s.hand.Going?
       case Exit => s.proc.main.Returned?
  }

  /** The section of `retired` under the lock: the first call sets `retiredDone` and has the callback to run. */
  function Claimed(s: State): State {
    if !s.hand.NotYet? then s
    else if s.onRetired.None? then s.(hand := Over)
    else s.(hand := Looking(s.onRetired.value), acts := s.acts + [Ran(s.onRetired.value)])
  }

  /** Whether the call that is about to be made has a callback to run; otherwise it returns at once. */
  predicate HasToRun(s: State) { s.hand.NotYet? && s.onRetired.Some? }

  function MainNext(s: State, ok: bool, v2: bool): Proc {
    var p := s.proc;
    match p.main
    case Top => p.(main := if s.stopping then Leaving else Connecting)
    case Connecting => if ok then Proc(Accepting, Selecting, true, v2, p.budget) else p.(main := Back)
    case Accepting => p.(main := Joining)
    case Joining => p.(main := Back, open := false)
    case Back => p.(main := if s.stopping then Leaving else Backoff)
    case Backoff => p.(main := if ok then Top else Leaving)
    case Leaving => p.(main := if HasToRun(s) then MainCalls else Returned)
    case MainCalls => p.(main := Returned)
    case Returned => p
  }

  function ShutAfter(next: Onto): Shut {
    match next case ToDrain => Draining case ToBacklog => Backlog case ToEnd => Finished
  }

  function ShutNext(s: State, stop: bool): Proc {
    var p := s.proc;
    match p.shut
    case Selecting => p.(shut := if stop then Begun else Finished)
    case Begun =>
      p.(shut := if !p.v2 then Draining
                 else if p.budget.NoDrain? || !p.open || p.budget.Short? then Retiring(ToDrain)
                 else Requesting)
    case Requesting => p.(shut := Retiring(ToBacklog))
    case Retiring(next) => p.(shut := if HasToRun(s) then ShutCalls(next) else ShutAfter(next))
    case ShutCalls(next) => p.(shut := ShutAfter(next))
    case Backlog => p.(shut := Draining)
    case Draining => p.(open := false, shut := if p.v2 then Finished else Retiring(ToEnd))
    case _ => p
  }

  function NextPhase(s: State, p: Phase, ok: bool): Phase {
    match p
    case Checking => if s.stopping then Refused else Claiming
    case Claiming => if s.busy then Refused else Spawning
    case Spawning => if ok then Waiting else Refused
    case Waiting => if ok then Rechecking else Refused
    case Rechecking => if s.stopping then Aborting else Setting
    case Setting => if s.hand.NotYet? then Set else Aborting
    case Aborting => Refused
    case Set => Succeeded
    case _ => p
  }

  function NextBusy(busy: bool, p: Phase, ok: bool): bool {
    if p.Claiming? then true else if p.Aborting? || ((p.Spawning? || p.Waiting?) && !ok) then false else busy
  }

  /** One step of `replace`. */
  function Stepped(s: State, i: Id, ok: bool): State
    requires i in s.calls
  {
    var p, p' := s.calls[i], NextPhase(s, s.calls[i], ok);
    s.(calls := s.calls[i := p'], busy := NextBusy(s.busy, p, ok),
       spawned := if p.Spawning? && ok then s.spawned + [i] else s.spawned,
       onRetired := if p.Setting? && p'.Set? then Some(i) else s.onRetired,
       stopping := s.stopping || p.Set?)
  }

  /** One step of `handOver`. */
  function Handed(s: State, ok: bool): State {
    match s.hand
    case Looking(i) => if i in s.dead then s.(hand := Over, failed := true) else s.(hand := Notifying(i))
    case Notifying(i) =>
      if ok then s.(hand := Going(i), acts := s.acts + [MainPid(i)]) else s.(hand := Over, failed := true)
    case Going(i) => s.(hand := Over, acts := if ok then s.acts + [GoAhead(i)] else s.acts)
    case _ => s
  }

  function Apply(s: State, e: Event): State
    requires Enabled(s, e)
  {
    match e
    case Signal(i) => s.(calls := s.calls[i := Checking])
    case Step(i, ok) => Stepped(s, i, ok)
    case Terminate => s.(stopping := true)
    case Dies(i) => s.(dead := s.dead + {i})
    case SessionDies => s.(proc := s.proc.(open := false))
    case MainStep(ok, v2) => (if s.proc.main.Leaving? then Claimed(s) else s).(proc := MainNext(s, ok, v2))
    case ShutStep(stop) => (if s.proc.shut.Retiring? then Claimed(s) else s).(proc := ShutNext(s, stop))
    case HandStep(ok) => Handed(s, ok)
    case Exit => s.(exit := Some(s.failed))
  }

  ghost predicate NextAt(r: seq<State>, k: nat)
    requires k + 1 < |r|
  {
    exists e :: Enabled(r[k], e) && r[k + 1] == Apply(r[k], e)
  }

  ghost predicate Run(r: seq<State>) {
    r != [] && r[0] == Start(r[0].proc.budget) && forall k: nat :: k < |r| - 1 ==> NextAt(r, k)
  }

  /** Only one call is past `busy` and not refused, and `busy` says there is one. */
  ghost predicate OneAtATime(s: State) {
    && (forall i <- s.calls :: s.calls[i].Busy() ==> s.busy)
    && (forall i, j :: i in s.calls && j in s.calls && s.calls[i].Busy() && s.calls[j].Busy() ==> i == j)
  }

  /** The callback set is the accepted call's. */
  ghost predicate Chosen(s: State) {
    && (s.onRetired.Some? ==> s.onRetired.value in s.calls && s.calls[s.onRetired.value].Accepted())
    && (forall i <- s.calls :: s.calls[i].Accepted() ==> s.onRetired == Some(i))
  }

  /** What has been done, exactly. */
  ghost predicate Done(s: State) {
    match s.hand
    case NotYet => s.acts == [] && !s.failed
    case Looking(i) => s.onRetired == Some(i) && s.acts == [Ran(i)] && !s.failed
    case Notifying(i) => s.onRetired == Some(i) && s.acts == [Ran(i)] && !s.failed
    case Going(i) => s.onRetired == Some(i) && s.acts == [Ran(i), MainPid(i)] && !s.failed
    case Over =>
      match s.onRetired
      case None => s.acts == [] && !s.failed
      case Some(i) =>
        if s.failed then s.acts == [Ran(i)]
        else s.acts == [Ran(i), MainPid(i)] || s.acts == [Ran(i), MainPid(i), GoAhead(i)]
  }

  predicate Running(h: Hand) { h.Looking? || h.Notifying? || h.Going? }

  /** The callback is run by one of the two callers of `retired`, which waits for it. The main goroutine is past a
      session only when that session's goroutine has finished, so `Run` cannot return while the other runs the
      callback. */
  ghost predicate Joined(p: Proc, hand: Hand, stopping: bool) {
    && (Running(hand) ==> p.main.MainCalls? || p.shut.ShutCalls?)
    && (p.main.MainCalls? || p.shut.ShutCalls? ==> !hand.NotYet?)
    && (!p.main.Accepting? && !p.main.Joining? ==> p.shut.NoSession? || p.shut.Finished?)
    && (p.main.Accepting? || p.main.Joining? ==> !p.shut.NoSession?)
    && (p.main.Leaving? || p.main.MainCalls? || p.main.Returned? ==> stopping)
    && (p.main.Returned? ==> hand.Over?)
  }

  /** An older edge refuses a replacement while the session is open: until then the moment has not come. */
  ghost predicate AfterOld(p: Proc, hand: Hand, stopping: bool) {
    && (!p.shut.NoSession? && !p.shut.Selecting? && !p.shut.Finished? ==> stopping)
    && (!hand.NotYet? ==> stopping && !p.main.Top? && !p.main.Connecting? && !p.main.Backoff?)
    && (p.shut.Requesting? ==> p.v2)
    && ((p.shut.Retiring? || p.shut.ShutCalls?) && !p.v2 ==> !p.open)
    && (!p.main.Accepting? && !p.main.Joining? ==> !p.open)
    && (p.open && !p.v2 ==> hand.NotYet?)
  }

  ghost predicate Inv(s: State) {
    && OneAtATime(s) && Chosen(s) && Done(s)
    && Joined(s.proc, s.hand, s.stopping) && AfterOld(s.proc, s.hand, s.stopping)
    && (s.exit.Some? ==> s.proc.main.Returned? && s.exit.value == s.failed)
  }

  lemma NextKeeps(s: State, e: Event)
    requires Inv(s) && Enabled(s, e)
    ensures Inv(Apply(s, e))
  {
    if e.Step? {
      StepOneAtATime(s, e.i, e.ok);
      StepChosen(s, e.i, e.ok);
      StepDone(s, e.i, e.ok);
    } else {
      NextDone(s, e);
    }
    NextJoined(s, e);
    NextAfterOld(s, e);
  }

  lemma NextJoined(s: State, e: Event)
    requires Joined(s.proc, s.hand, s.stopping) && Enabled(s, e)
    ensures var s' := Apply(s, e); Joined(s'.proc, s'.hand, s'.stopping)
  {
    if e.MainStep? { MainJoined(s, e.ok, e.v2); }
    if e.ShutStep? { ShutJoined(s, e.stop); }
  }

  lemma MainJoined(s: State, ok: bool, v2: bool)
    requires Joined(s.proc, s.hand, s.stopping) && MainEnabled(s, ok)
    ensures Joined(MainNext(s, ok, v2), (if s.proc.main.Leaving? then Claimed(s) else s).hand, s.stopping)
  {}

  lemma ShutJoined(s: State, stop: bool)
    requires Joined(s.proc, s.hand, s.stopping) && ShutEnabled(s, stop)
    ensures Joined(ShutNext(s, stop), (if s.proc.shut.Retiring? then Claimed(s) else s).hand, s.stopping)
  {}

  lemma NextAfterOld(s: State, e: Event)
    requires Joined(s.proc, s.hand, s.stopping) && AfterOld(s.proc, s.hand, s.stopping) && Enabled(s, e)
    ensures var s' := Apply(s, e); AfterOld(s'.proc, s'.hand, s'.stopping)
  {}

  lemma NextDone(s: State, e: Event)
    requires Done(s) && Enabled(s, e) && !e.Step?
    ensures Done(Apply(s, e))
  {}

  lemma StepOneAtATime(s: State, i: Id, ok: bool)
    requires OneAtATime(s) && i in s.calls
    ensures OneAtATime(Stepped(s, i, ok))
  {}

  lemma StepChosen(s: State, i: Id, ok: bool)
    requires OneAtATime(s) && Chosen(s) && i in s.calls
    ensures Chosen(Stepped(s, i, ok))
  {}

  lemma StepDone(s: State, i: Id, ok: bool)
    requires Done(s) && i in s.calls
    ensures Done(Stepped(s, i, ok))
  {}

  lemma {:induction false} RunKeeps(r: seq<State>, k: nat)
    requires Run(r) && k < |r|
    ensures Inv(r[k])
  {
    if k > 0 {
      RunKeeps(r, k - 1);
      assert NextAt(r, k - 1);
      var e: Event :| Enabled(r[k - 1], e) && r[k] == Apply(r[k - 1], e);
      NextKeeps(r[k - 1], e);
    }
  }

  /** An accepted call stays accepted, and nothing is spawned after it. */
  lemma {:induction false} AcceptedStays(r: seq<State>, k: nat, m: nat, i: Id)
    requires Run(r) && k <= m < |r| && i in r[k].calls && r[k].calls[i].Accepted()
    ensures i in r[m].calls && r[m].calls[i].Accepted() && r[m].spawned == r[k].spawned
  {
    if k < m {
      AcceptedStays(r, k, m - 1, i);
      RunKeeps(r, m - 1);
      assert NextAt(r, m - 1);
      var e: Event :| Enabled(r[m - 1], e) && r[m] == Apply(r[m - 1], e);
      NextAccepted(r[m - 1], e, i);
    }
  }

  lemma NextAccepted(s: State, e: Event, i: Id)
    requires OneAtATime(s) && Enabled(s, e) && i in s.calls && s.calls[i].Accepted()
    ensures var s' := Apply(s, e); i in s'.calls && s'.calls[i].Accepted() && s'.spawned == s.spawned
  {
    assert e.Step? && s.calls[e.i].Busy() ==> e.i == i;
  }

  /** On every run where a replacement was accepted: once the process exits, its callback has run exactly once, and
      either systemd was told that the successor is the main process, or the exit is non-zero; never both. The
      go-ahead is only ever given after that. No other replacement is accepted, nor another successor started since. */
  lemma Handover(r: seq<State>, k: nat, m: nat, i: Id)
    requires Run(r) && k <= m < |r| && i in r[k].calls && r[k].calls[i].Accepted() && r[m].exit.Some?
    ensures r[m].acts in {[Ran(i)], [Ran(i), MainPid(i)], [Ran(i), MainPid(i), GoAhead(i)]}
    ensures r[m].exit.value <==> MainPid(i) !in r[m].acts
    ensures r[m].spawned == r[k].spawned
    ensures forall j <- r[m].calls :: r[m].calls[j].Accepted() ==> j == i
  {
    AcceptedStays(r, k, m, i);
    RunKeeps(r, m);
  }

  /** `Run` returns only once the callback, if one was accepted, has run to its end, whichever goroutine ran it. */
  lemma CallbackBeforeReturn(r: seq<State>, k: nat)
    requires Run(r) && k < |r| && r[k].proc.main.Returned?
    ensures r[k].hand.Over? && (r[k].onRetired.Some? ==> r[k].acts != [] && r[k].acts[0] == Ran(r[k].onRetired.value))
  {
    RunKeeps(r, k);
  }

  /** With an older edge the callback does not begin before the session has closed. */
  lemma NotWhileOldSessionOpen(r: seq<State>, k: nat)
    requires Run(r) && k < |r| && r[k].proc.open && !r[k].proc.v2
    ensures r[k].acts == [] && r[k].hand.NotYet?
  {
    RunKeeps(r, k);
  }

  /** At any moment of any run a go-ahead was given only after systemd was told, and only to the accepted successor. */
  lemma ToldFirst(r: seq<State>, k: nat, q: nat, i: Id)
    requires Run(r) && k < |r| && q < |r[k].acts| && r[k].acts[q] == GoAhead(i)
    ensures q == 2 && r[k].acts[1] == MainPid(i) && r[k].acts[0] == Ran(i) && r[k].onRetired == Some(i)
  {
    RunKeeps(r, k);
  }

  /** Without an accepted replacement nothing is handed over and the exit is clean; a failed handover had one. */
  lemma NothingHandedOver(r: seq<State>, k: nat)
    requires Run(r) && k < |r| && forall i <- r[k].calls :: !r[k].calls[i].Accepted()
    ensures r[k].acts == [] && !r[k].failed
  {
    RunKeeps(r, k);
  }
}

/** Rounds that show where the deadline gets in the way. */
module DispatchRuns {
  import opened Dispatch

  function LateWorld(): World {
    World({0, 1}, (k: nat) => if k < 3 then 0 else 100, (k: nat) => if k == 0 then [0] else [1], (k: nat) => 0,
          (k: nat) => Happens(OpenRetired, 0, false, false, false, Broken, 0, false, Delays(0, 0, 0, 0)),
          (c: Session) => true, (k: nat) => false, 10, true)
  }

  /** The clock stands still until the look for joined sessions has found one, and then jumps past the deadline. */
  ghost predicate IsLate(w: World) {
    && w.clock(0) == w.clock(1) == w.clock(2) == 0 && w.clock(3) == 100 && w.acceptWait == 10 && w.preambleFits
    && w.universe == {0, 1} && Live(w, 0) == [0] && Live(w, 1) == [1] && !w.cooling(0)
    && w.happens(0).open.OpenRetired? && w.happens(0).delays == Delays(0, 0, 0, 0)
  }

  lemma LateIsLate()
    ensures IsLate(LateWorld())
  {
    var w := LateWorld();
    assert w.looks(0) == [0] && Within([0], w.universe) == [0];
    assert w.looks(1) == [1] && Within([1], w.universe) == [1];
  }

  /** A refresh is not always followed by an attempt: the deadline can pass between the look at the sessions and the
      next reading of the clock, and the session just found is then not tried. `RefreshAt` says exactly when. */
  lemma RefreshInVain()
    ensures exists w :: IsLate(w) && var (ss, e) := Round(w);
      |ss| == 2 && ss[0].Tried? && ss[1].Refreshed? && e == NoAgent
  {
    LateIsLate();
    LateRound(LateWorld());
  }

  lemma LateRound(w: World)
    requires IsLate(w)
    ensures var (ss, e) := Round(w); |ss| == 2 && ss[0].Tried? && ss[1].Refreshed? && e == NoAgent
  {
    RoundIs(w, First(w), 20);
    LateWhole(w, First(w));
  }

  lemma RoundIs(w: World, l: Loop, deadline: int)
    requires l == First(w) && l.cands != [] && w.preambleFits && deadline == Deadline(w)
    ensures Sound(w, l) && Round(w) == Rest(w, l, deadline)
  {}

  lemma LateWhole(w: World, l: Loop)
    requires IsLate(w) && l == First(w) && Sound(w, l)
    ensures Rest(w, l, 20) ==
      ([Tried(0, Unavailable, false, Timing(0, 20, 0, 0), w.v2(0), w.happens(0)), Refreshed], NoAgent)
  {
    var s, l1 := Tried(0, Unavailable, false, Timing(0, 20, 0, 0), w.v2(0), w.happens(0)), Loop([0], {0}, 1, 1, 2, 1);
    LateAttempt(w, l, l1);
    LateRest(w, l1);
    OneTurn(w, l, l1, 20, s);
    assert [s] + ([Refreshed] + []) == [s, Refreshed];
  }

  lemma LateRest(w: World, l: Loop)
    requires IsLate(w) && l == Loop([0], {0}, 1, 1, 2, 1)
    ensures Sound(w, l) && Rest(w, l, 20) == Then(Refreshed, ([], NoAgent))
  {
    var l2 := Refresh(l, [1]);
    LateLists();
    OutOfTime(w, l2, 20);
    OneTurn(w, l, l2, 20, Refreshed);
  }

  lemma OutOfTime(w: World, l: Loop, deadline: int)
    requires Sound(w, l) && deadline <= w.clock(l.readings)
    ensures Rest(w, l, deadline) == ([], if l.unavailable == l.attempts then NoAgent else StreamError)
  {}

  lemma OneTurn(w: World, l: Loop, l': Loop, deadline: int, s: Step)
    requires Sound(w, l) && TurnOf(w, l, deadline) == GoesOn(s, l') && Sound(w, l')
    ensures Rest(w, l, deadline) == Then(s, Rest(w, l', deadline))
  {}

  lemma LateLists()
    ensures Untried([0], {}) == [0] && Untried([0], {0}) == [] && Untried([1], {0}) == [1]
  {}

  /** The first attempt, on the only session listed. */
  lemma LoneAttempt(w: World, l: Loop, c: Session, wait: Duration, deadline: int)
    requires l.attempts == 0 && Untried(l.cands, l.tried) == [c] && Untried(l.cands, l.tried + {c}) == []
    requires !w.cooling(0) && deadline - w.clock(l.readings) == wait
    ensures var l' := Loop(l.cands, l.tried + {c}, 1, l.unavailable, l.readings + 1, l.looks);
      var h := w.happens(0);
      TurnOf(w, l, deadline)
      == Concluded(l', c, Outcomes(w.v2(c), h, wait, w.acceptWait), Timed(w.v2(c), h, w.clock(l.readings), wait),
                   w.v2(c), h)
  {
    assert w.choose(0) % 1 == 0;
    assert Pick(w, l) == c;
    assert l.cands + [] == l.cands;
    assert Attempted(w, l, c) == Loop(l.cands, l.tried + {c}, 1, l.unavailable, l.readings + 1, l.looks);
  }

  lemma LateAttempt(w: World, l: Loop, l': Loop)
    requires IsLate(w) && l == First(w) && l' == Loop([0], {0}, 1, 1, 2, 1)
    ensures TurnOf(w, l, 20) == GoesOn(Tried(0, Unavailable, false, Timing(0, 20, 0, 0), w.v2(0), w.happens(0)), l')
  {
    LateLists();
    assert l.tried + {0} == {0};
    LoneAttempt(w, l, 0, 20, 20);
  }

  /** The one session there is accepts at the very end of the time it was given, all the time left. */
  ghost predicate IsSlow(w: World) {
    && w.clock(0) == w.clock(1) == 0 && w.acceptWait == 10 && w.preambleFits && Live(w, 0) == [0] && !w.cooling(0)
    && w.v2(0) && w.happens(0) == Happens(Opened, 20, false, true, false, Accepted, 0, true, Delays(1, 0, 0, 0))
  }

  lemma SlowAttempt(w: World, l: Loop)
    requires IsSlow(w) && l == First(w)
    ensures TurnOf(w, l, 20) == Ends(Tried(0, OK, true, Timing(0, 20, 21, 1), true, w.happens(0)), Handed(0))
  {
    LateLists();
    assert l.tried + {0} == {0};
    LoneAttempt(w, l, 0, 20, 20);
  }

  lemma SlowRound(w: World)
    requires IsSlow(w)
    ensures var (ss, e) := Round(w);
      |ss| == 1 && ss[0].Tried? && ss[0].time.ended > Deadline(w) && e == Handed(0)
  {
    RoundIs(w, First(w), 20);
    SlowAttempt(w, First(w));
  }

  lemma SlowExists() returns (w: World)
    ensures IsSlow(w)
  {
    w := World({0}, (k: nat) => 0, (k: nat) => [0], (k: nat) => 0,
               (k: nat) => Happens(Opened, 20, false, true, false, Accepted, 0, true, Delays(1, 0, 0, 0)),
               (c: Session) => true, (k: nat) => false, 10, true);
    assert w.looks(0) == [0] && Within([0], w.universe) == [0];
  }

  /** An attempt's last wait can end past the round's deadline, and the request still be handed over: `tryAgent`
      reads the clock after its time was decided on. `EndsInTime` says exactly when it cannot. */
  lemma EndsLate()
    ensures exists w :: IsSlow(w) && var (ss, e) := Round(w);
      |ss| == 1 && ss[0].Tried? && ss[0].time.ended > Deadline(w) && e == Handed(0)
  {
    var w := SlowExists();
    SlowRound(w);
  }
}

/** What one round of dispatch makes of its attempts: what ends it, who is tried, and how long each may take. */
module DispatchGuarantees {
  import opened Basics
  import opened Dispatch

  /** An attempt that met an agent that is draining, gone or refusing. */
  predicate Declined(s: Step) { s.Tried? ==> s.time.wait >= 0 && Declines(s.v2, s.h, s.time.wait) }

  /** A round in which every attempt met an agent that is draining, gone or refusing ends with `noAgentWhy`, so
      `dispatch` waits for another; one attempt that met anything else, and the round does not. */
  lemma NoAgentMeans(w: World)
    ensures var (ss, e) := Round(w);
      e.NoAgent? <==> Live(w, 0) != [] && w.preambleFits && forall i :: 0 <= i < |ss| ==> Declined(ss[i])
  {
    RoundGood(w);
    var (ss, e) := Round(w);
    assert forall i :: 0 <= i < |ss| ==> Told(ss[i]);
    if e.NoAgent? {
      assert forall i :: 0 <= i < |ss| ==> Wanting(ss[i]);
    }
  }

  // ---- Nobody is left out ----

  /** The loop when it ends. */
  ghost function Final(w: World, l: Loop, deadline: int): Loop
    requires Sound(w, l)
    decreases Ahead(w, l), Left(l)
  {
    TurnSound(w, l, deadline);
    match TurnOf(w, l, deadline)
    case Stops(_) => l
    case Ends(_, _) => l
    case GoesOn(_, l') => Final(w, l', deadline)
  }

  ghost predicate Attempts(ss: seq<Step>, c: Session) { exists i :: 0 <= i < |ss| && ss[i].Tried? && ss[i].c == c }

  /** Sessions once listed or tried stay so, and those tried are the steps'. */
  ghost predicate KeepsTrack(l: Loop, f: Loop, ss: seq<Step>) {
    && (forall c :: c in l.cands || c in l.tried ==> c in f.cands || c in f.tried)
    && (forall c :: c in f.tried ==> c in l.tried || Attempts(ss, c))
    && f.readings == l.readings + |ss| && l.looks <= f.looks
  }

  lemma TurnKeepsTrack(w: World, l: Loop, deadline: int)
    requires Sound(w, l)
    ensures var t := TurnOf(w, l, deadline);
      t.GoesOn? ==>
        && (forall c :: c in l.cands || c in l.tried ==> c in t.next.cands || c in t.next.tried)
        && (forall c :: c in t.next.tried ==> c in l.tried || (t.step.Tried? && t.step.c == c))
        && t.next.readings == l.readings + 1 && l.looks <= t.next.looks
  {}

  /** Where the loop gave up: all is accounted for and, with time left, all listed and all live are tried. */
  ghost predicate GaveUp(w: World, l: Loop, f: Loop, ss: seq<Step>, deadline: int) {
    && KeepsTrack(l, f, ss)
    && (w.clock(f.readings) < deadline ==>
          (forall c <- f.cands :: c in f.tried) && (forall c <- Live(w, f.looks) :: c in f.tried))
  }

  lemma {:induction false} FinalTracks(w: World, l: Loop, deadline: int)
    requires Sound(w, l) && (Rest(w, l, deadline).1.NoAgent? || Rest(w, l, deadline).1.StreamError?)
    ensures GaveUp(w, l, Final(w, l, deadline), Rest(w, l, deadline).0, deadline)
    decreases Ahead(w, l), Left(l)
  {
    TurnSound(w, l, deadline);
    TurnGood(w, l, deadline);
    var t := TurnOf(w, l, deadline);
    if t.Stops? {
      if w.clock(l.readings) < deadline { StopsTried(w, l, deadline); }
    } else if t.GoesOn? {
      FinalGoesOn(w, l, deadline, t.step, t.next);
      FinalTracks(w, t.next, deadline);
      TurnKeepsTrack(w, l, deadline);
      TracksThen(l, t.next, Final(w, t.next, deadline), t.step, Rest(w, t.next, deadline).0);
    }
  }

  lemma FinalGoesOn(w: World, l: Loop, deadline: int, s: Step, l': Loop)
    requires Sound(w, l) && TurnOf(w, l, deadline) == GoesOn(s, l') && Sound(w, l')
    ensures Final(w, l, deadline) == Final(w, l', deadline) && Rest(w, l, deadline) == Then(s, Rest(w, l', deadline))
  {}

  lemma StopsTried(w: World, l: Loop, deadline: int)
    requires TurnOf(w, l, deadline).Stops? && w.clock(l.readings) < deadline
    ensures (forall c <- l.cands :: c in l.tried) && (forall c <- Live(w, l.looks) :: c in l.tried)
  {
    assert forall c :: c in Untried(l.cands, l.tried) <==> c in l.cands && c !in l.tried;
    assert forall c :: c in Untried(Live(w, l.looks), l.tried) <==> c in Live(w, l.looks) && c !in l.tried;
  }

  lemma TracksThen(l: Loop, l': Loop, f: Loop, s: Step, ss: seq<Step>)
    requires forall c :: c in l.cands || c in l.tried ==> c in l'.cands || c in l'.tried
    requires forall c :: c in l'.tried ==> c in l.tried || (s.Tried? && s.c == c)
    requires l'.readings == l.readings + 1 && l.looks <= l'.looks && KeepsTrack(l', f, ss)
    ensures KeepsTrack(l, f, [s] + ss)
  {
    var t := [s] + ss;
    forall c | c in f.tried ensures c in l.tried || Attempts(t, c) {
      if Attempts(ss, c) {
        var i :| 0 <= i < |ss| && ss[i].Tried? && ss[i].c == c;
        assert t[i + 1].Tried? && t[i + 1].c == c;
      } else if c !in l.tried {
        assert t[0].Tried? && t[0].c == c;
      }
    }
  }

  /** A round that gives up before its deadline has tried every session: those live at first, and those live at a look
      made after all of them were tried. */
  lemma EveryoneTried(w: World)
    ensures var (ss, e) := Round(w);
      (e.NoAgent? || e.StreamError?) && w.clock(1 + |ss|) < Deadline(w) ==>
        && (forall c <- Live(w, 0) :: Attempts(ss, c))
        && exists look: nat :: 1 <= look && forall c <- Live(w, look) :: Attempts(ss, c)
  {
    var (ss, e) := Round(w);
    if (e.NoAgent? || e.StreamError?) && w.clock(1 + |ss|) < Deadline(w) {
      var l, deadline := First(w), Deadline(w);
      FinalTracks(w, l, deadline);
      var f := Final(w, l, deadline);
      assert forall c <- Live(w, f.looks) :: c in f.tried;
    }
  }

  /** Some session other than `c` is not tried yet. */
  ghost predicate Another(s: seq<Session>, tried: set<Session>, c: Session) {
    exists x <- s :: x !in tried && x != c
  }

  lemma AnotherUntried(s: seq<Session>, tried: set<Session>, c: Session)
    ensures Another(s, tried, c) <==> Untried(s, tried + {c}) != []
  {
    if Another(s, tried, c) {
      var x :| x in s && x !in tried && x != c;
      assert x in Untried(s, tried + {c});
    }
    if Untried(s, tried + {c}) != [] { assert Untried(s, tried + {c})[0] in Untried(s, tried + {c}); }
  }

  /** Another session could use the time: one listed, or, but for the first attempt, one that has joined since. */
  ghost predicate Wanted(w: World, l: Loop, c: Session) {
    Another(l.cands, l.tried, c) || (l.attempts > 0 && Another(Live(w, l.looks), l.tried, c))
  }

  /** How much time an attempt gets: the time left if the session is not cooling down and no other could use it, and
      otherwise no more than `acceptWait`, so that a stalled agent leaves time for another. */
  lemma TimeGiven(w: World, l: Loop, deadline: int)
    requires Untried(l.cands, l.tried) != [] && deadline - w.clock(l.readings) > 0
    ensures var t := AttemptTurn(w, l, deadline);
      && !t.Stops? && t.step.Tried? && t.step.c in l.cands && t.step.c !in l.tried
      && t.step.time.wait == (var left := deadline - w.clock(l.readings);
           if w.cooling(l.attempts) || Wanted(w, l, t.step.c) then Min(left, w.acceptWait) else left)
  {
    var c := Pick(w, l);
    AnotherUntried(l.cands, l.tried, c);
    AnotherUntried(Live(w, l.looks), l.tried, c);
  }
}

/** A run of `Streams`: a tunnel stream that is opened, kept, taken for a second request and closed. */
module StreamRuns {
  import opened Options
  import opened Streams

  ghost predicate Leads(caps: map<Route, nat>, r: seq<State>, s: State) {
    Run(caps, r) && r[|r| - 1] == s
  }

  lemma LeadsOn(caps: map<Route, nat>, r: seq<State>, e: Event, s: State, t: State)
    requires Leads(caps, r, s) && Enabled(caps, s, e) && Apply(caps, s, e) == t
    ensures Leads(caps, r + [t], t)
  {
    var q := r + [t];
    forall k: nat | k + 1 < |q| ensures NextAt(caps, q, k) {
      if k + 1 < |r| {
        assert NextAt(caps, r, k) && q[k] == r[k] && q[k + 1] == r[k + 1];
      } else {
        assert q[k] == s && q[k + 1] == t;
      }
    }
  }

  const REQ: Req := Req(5, "h", 0)
  const OPEN_FLAGS: Flags := Flags(false, {}, {}, {}, None)

  function Counted(slot: int, active: int): Counters { map[Slot(0) := slot, Active(7) := active] }

  function AsTask(c: Counters, p: Phase): State { State(c, map[0 := Task(H3(REQ), p)], OPEN_FLAGS) }

  function AsStream(place: Place, life: Life, watch: Watch, carried: seq<Req>): Stream {
    Stream(7, 0, "h", place, life, watch, 0, carried)
  }

  function AsTunnel(c: Counters, s: Stream, lock: Option<Id>): State {
    State(c, map[0 := Tunnel(s)], OPEN_FLAGS.(lock := lock))
  }

  /** A request finds a free slot and opens a stream. */
  lemma PathToOpen(caps: map<Route, nat>) returns (r: seq<State>)
    requires caps == map[0 := 1]
    ensures Leads(caps, r, AsTunnel(Counted(1, 1), AsStream(InUse(REQ), Open, NoWatch, [REQ]), None))
  {
    var s0 := START;
    var s1 := AsTask(map[], Asking);
    var s2 := AsTask(map[Slot(0) := 1], Serving);
    var s3 := AsTask(Counted(1, 1), Trying(7));
    var s4 := AsTask(Counted(1, 1), Holding(7));
    var s5 := AsTunnel(Counted(1, 1), AsStream(InUse(REQ), Open, NoWatch, [REQ]), None);
    r := [s0];
    LeadsOn(caps, r, Arrive(0, H3(REQ)), s0, s1);
    LeadsOn(caps, r + [s1], OfTask(0, FirstTry), s1, s2);
    LeadsOn(caps, r + [s1] + [s2], OfTask(0, Reserve(7)), s2, s3);
    LeadsOn(caps, r + [s1] + [s2] + [s3], OfTask(0, Win), s3, s4);
    LeadsOn(caps, r + [s1] + [s2] + [s3] + [s4], OpenDone(0), s4, s5);
    r := r + [s1] + [s2] + [s3] + [s4] + [s5];
  }

  /** The exchange ends cleanly and the stream is kept. */
  lemma PathToKept(caps: map<Route, nat>, r0: seq<State>) returns (r: seq<State>)
    requires Leads(caps, r0, AsTunnel(Counted(1, 1), AsStream(InUse(REQ), Open, NoWatch, [REQ]), None))
    ensures Leads(caps, r, AsTunnel(Counted(1, 1), AsStream(Idle(5), Open, Reading, [REQ]), None))
  {
    var c := Counted(1, 1);
    var s5 := AsTunnel(c, AsStream(InUse(REQ), Open, NoWatch, [REQ]), None);
    var s6 := AsTunnel(c, AsStream(Checked(REQ), Open, NoWatch, [REQ]), Some(0));
    var s7 := AsTunnel(c, AsStream(Cleared(REQ), Open, NoWatch, [REQ]), Some(0));
    var s8 := AsTunnel(c, AsStream(Idle(5), Open, Reading, [REQ]), None);
    StreamOn(caps, r0, PutCheck(false), s5, s6);
    StreamOn(caps, r0 + [s6], PutRetired, s6, s7);
    StreamOn(caps, r0 + [s6] + [s7], PutInsert, s7, s8);
    r := r0 + [s6] + [s7] + [s8];
  }

  /** One step of the only stream. */
  lemma StreamOn(caps: map<Route, nat>, r: seq<State>, e: StreamEvent, s: State, t: State)
    requires Leads(caps, r, s)
    requires s.holders.Keys == {0} && s.holders[0].Tunnel? && Waiter(0) !in s.counters && s.holders[0].s.route == 0
    requires StreamEnabled(s.flags, 0, s.holders[0].s, e)
    requires var now := StreamStep(s.flags, 0, 0, s.holders[0].s, e);
      && t.holders == map[0 := Tunnel(now)] && t.flags == LockAfter(s.flags, 0, now, e)
      && t.counters == Add(s.counters, StreamAdds(s.holders[0].s, e).0, StreamAdds(s.holders[0].s, e).1)
    ensures Leads(caps, r + [t], t)
  {
    assert s.holders[0 := t.holders[0]] == t.holders;
    LeadsOn(caps, r, OfStream(0, e), s, t);
  }

  /** A second request of the same connection takes it. */
  lemma PathToTaken(caps: map<Route, nat>, r0: seq<State>) returns (r: seq<State>)
    requires Leads(caps, r0, AsTunnel(Counted(1, 1), AsStream(Idle(5), Open, Reading, [REQ]), None))
    ensures Leads(caps, r, AsTunnel(Counted(1, 1), AsStream(InUse(REQ), Open, Finished(true), [REQ, REQ]), None))
  {
    var c := Counted(1, 1);
    var s8 := AsTunnel(c, AsStream(Idle(5), Open, Reading, [REQ]), None);
    var s9 := AsTunnel(c, AsStream(TakenBy(REQ), Open, Reading, [REQ]), None);
    var s10 := AsTunnel(c, AsStream(TakenBy(REQ), Open, Got(false, true), [REQ]), None);
    var s11 := AsTunnel(c, AsStream(TakenBy(REQ), Open, Finished(true), [REQ]), None);
    var s12 := AsTunnel(c, AsStream(InUse(REQ), Open, Finished(true), [REQ, REQ]), None);
    StreamOn(caps, r0, TakeRemove(REQ), s8, s9);
    StreamOn(caps, r0 + [s9], WatchRead(false, true), s9, s10);
    StreamOn(caps, r0 + [s9] + [s10], WatchLock, s10, s11);
    assert [REQ] + [REQ] == [REQ, REQ];
    StreamOn(caps, r0 + [s9] + [s10] + [s11], TakeCheck(true), s11, s12);
    r := r0 + [s9] + [s10] + [s11] + [s12];
  }

  /** The second exchange does not end cleanly: the stream is closed. */
  lemma PathToAborted(caps: map<Route, nat>, r0: seq<State>) returns (r: seq<State>)
    requires Leads(caps, r0, AsTunnel(Counted(1, 1), AsStream(InUse(REQ), Open, Finished(true), [REQ, REQ]), None))
    ensures Leads(caps, r, AsTunnel(Counted(1, 1), AsStream(Out, Aborted, Finished(true), [REQ, REQ]), None))
  {
    var c, w, qs := Counted(1, 1), Finished(true), [REQ, REQ];
    var s13 := AsTunnel(c, AsStream(Out, Open, w, qs), None);
    var s14 := AsTunnel(c, AsStream(Out, Aborted, w, qs), None);
    StreamOn(caps, r0, EndUse, AsTunnel(c, AsStream(InUse(REQ), Open, w, qs), None), s13);
    StreamOn(caps, r0 + [s13], CloseBegin, s13, s14);
    r := r0 + [s13] + [s14];
  }

  /** Everything it held is released. */
  lemma PathToClosed(caps: map<Route, nat>, r0: seq<State>) returns (r: seq<State>)
    requires Leads(caps, r0, AsTunnel(Counted(1, 1), AsStream(Out, Aborted, Finished(true), [REQ, REQ]), None))
    ensures Leads(caps, r, AsTunnel(Counted(0, 0), AsStream(Out, Closed, Finished(true), [REQ, REQ]), None))
  {
    var w, qs := Finished(true), [REQ, REQ];
    var s14 := AsTunnel(Counted(1, 1), AsStream(Out, Aborted, w, qs), None);
    var s15 := AsTunnel(Counted(1, 0), AsStream(Out, Uncounted, w, qs), None);
    var s16 := AsTunnel(Counted(0, 0), AsStream(Out, Closed, w, qs), None);
    StreamOn(caps, r0, CloseCount, s14, s15);
    StreamOn(caps, r0 + [s15], CloseSlot, s15, s16);
    r := r0 + [s15] + [s16];
  }

  /** On a route with a single slot a stream is opened, carries a request, is kept, carries a second one, and is closed:
      the slot and the reservation are free again. */
  lemma ReusedRun() returns (caps: map<Route, nat>, r: seq<State>)
    ensures caps == map[0 := 1] && Run(caps, r) && |r| > 0
    ensures var s := r[|r| - 1];
      && 0 in s.holders && s.holders[0].Tunnel? && s.holders[0].s.carried == [REQ, REQ] && s.holders[0].s.life.Closed?
      && Value(s.counters, Slot(0)) == 0 && Value(s.counters, Active(7)) == 0
  {
    caps := map[0 := 1];
    r := PathToOpen(caps);
    r := PathToKept(caps, r);
    r := PathToTaken(caps, r);
    r := PathToAborted(caps, r);
    r := PathToClosed(caps, r);
  }
}

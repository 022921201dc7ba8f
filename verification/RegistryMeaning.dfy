/** Which sessions are in the registry's pool, told by the history of its operations and not by its state. */
module RegistryMeaning {
  import opened Registries

  // ---- Who is let in ----

  /** The verdict on a tracked newcomer, in terms of the sessions there are. */
  lemma VerdictMeans(r: Reg, shared: set<FP>, fp: FP, s: Session)
    requires Inv(r, shared)
    ensures var v := Verdict(r, shared, fp, s);
      var open := !r.closing && s !in r.gone;
      var rival := fp !in shared && exists c <- Pool(r, fp) :: c !in r.gone;
      var full := |set c | c in r.all && r.all[c] == Tracked(fp, true)| == 256;
      && (v.RefusedGone? <==> !open)
      && (v.RefusedDuplicate? <==> open && rival)
      && (v.RefusedCap? <==> open && !rival && full)
      && (v.Registered? <==> open && !rival && !full)
  {
    var live := Alive(Pool(r, fp), r.gone);
    if live != [] { assert live[0] in live; }
    JoinedIs(r, shared, fp);
  }

  lemma JoinedIs(r: Reg, shared: set<FP>, fp: FP)
    requires Inv(r, shared)
    ensures Value(r.joined, fp) == |set c | c in r.all && r.all[c] == Tracked(fp, true)| <= 256
  {
    assert With(r.all, Tracked(fp, true)) == set c | c in r.all && r.all[c] == Tracked(fp, true);
  }

  /** A new session is tracked unless the edge shuts down or 256 of its fingerprint are still connecting. */
  lemma AdmitMeans(r: Reg, shared: set<FP>, fp: FP)
    requires Inv(r, shared)
    ensures var full := |set c | c in r.all && r.all[c] == Tracked(fp, false)| == 256;
      && (Admit(r, fp).TrackClosing? <==> r.closing)
      && (Admit(r, fp).TrackCapped? <==> !r.closing && full)
  {
    assert With(r.all, Tracked(fp, false)) == set c | c in r.all && r.all[c] == Tracked(fp, false);
  }

  // ---- One operation ----

  predicate Joins(r: Reg, shared: set<FP>, e: Event, fp: FP, s: Session) {
    e == Registering(fp, s) && Verdict(r, shared, fp, s).Registered?
  }

  /** `s` leaves, if it is there: it is taken out or dropped, or it has closed and someone looks at the pool. */
  predicate Leaves(r: Reg, e: Event, fp: FP, s: Session) {
    || e == Taking(fp, s) || e == Dropping(s)
    || (s in r.gone && (e == Looking(fp) || (e.Registering? && e.fp == fp)))
  }

  ghost function Leaving(r: Reg, e: Event, fp: FP): set<Session> { set s | s in Pool(r, fp) && Leaves(r, e, fp, s) }

  /** Whoever leaves leaves, a newcomer comes last, and the others stay where they are. */
  lemma PoolAfter(r: Reg, shared: set<FP>, e: Event, fp: FP)
    requires Inv(r, shared) && Enabled(r, e)
    ensures Pool(Apply(r, shared, e), fp) ==
      Among(Pool(r, fp), Leaving(r, e, fp), false)
      + if e.Registering? && Joins(r, shared, e, fp, e.s) then [e.s] else []
  {
    match e
    case Registering(g, s) =>
      SweepAfter(r, e, g, fp);
      JoinAfter(r, shared, g, s, fp);
    case Looking(g) => SweepAfter(r, e, g, fp);
    case Taking(g, s) => TakeAfter(r, g, s, fp);
    case Dropping(s) => DropAfter(r, shared, fp, s);
    case _ => AmongAll(Pool(r, fp), Leaving(r, e, fp), false);
  }

  lemma PutAfter(byFP: map<FP, seq<Session>>, g: FP, list: seq<Session>, fp: FP)
    ensures var m := Put(byFP, g, list);
      (if fp in m then m[fp] else []) == if g == fp then list else if fp in byFP then byFP[fp] else []
  {}

  lemma JoinAfter(r: Reg, shared: set<FP>, g: FP, s: Session, fp: FP)
    ensures Pool(Register(r, shared, g, s), fp) ==
      Pool(Swept(r, g), fp) + if Joins(r, shared, Registering(g, s), fp, s) then [s] else []
  {}

  lemma SweepAfter(r: Reg, e: Event, g: FP, fp: FP)
    requires e == Looking(g) || (e.Registering? && e.fp == g)
    ensures Pool(Swept(r, g), fp) == Among(Pool(r, fp), Leaving(r, e, fp), false)
  {
    PutAfter(r.byFP, g, Alive(Pool(r, g), r.gone), fp);
    var leaving := Leaving(r, e, fp);
    if g == fp { SameAmong(Pool(r, fp), r.gone, leaving); } else { AmongAll(Pool(r, fp), leaving, false); }
  }

  lemma TakeAfter(r: Reg, g: FP, s: Session, fp: FP)
    ensures Pool(Take(r, g, s), fp) == Among(Pool(r, fp), Leaving(r, Taking(g, s), fp), false)
  {
    var leaving := Leaving(r, Taking(g, s), fp);
    PutAfter(r.byFP, g, Among(Pool(r, g), {s}, false), fp);
    if g == fp { SameAmong(Pool(r, fp), {s}, leaving); } else { AmongAll(Pool(r, fp), leaving, false); }
  }

  lemma DropAfter(r: Reg, shared: set<FP>, fp: FP, s: Session)
    requires Inv(r, shared)
    ensures Pool(Drop(r, s), fp) == Among(Pool(r, fp), Leaving(r, Dropping(s), fp), false)
  {
    var leaving := Leaving(r, Dropping(s), fp);
    if s in r.all {
      var g := r.all[s].fp;
      assert g != fp ==> s !in Pool(r, fp);
      TakeAfter(r, g, s, fp);
      assert Pool(Drop(r, s), fp) == Pool(Take(r, g, s), fp);
      SameAmong(Pool(r, fp), Leaving(r, Taking(g, s), fp), leaving);
    } else {
      assert s !in Pool(r, fp);
      AmongAll(Pool(r, fp), leaving, false);
    }
  }

  /** Two sets that agree on a list pick the same of it. */
  lemma {:induction false} SameAmong(s: seq<Session>, x: set<Session>, y: set<Session>)
    requires forall c <- s :: c in x <==> c in y
    ensures Among(s, x, false) == Among(s, y, false)
  {
    if s != [] {
      assert s[|s| - 1] in s && forall c <- s[..|s| - 1] :: c in s;
      SameAmong(s[..|s| - 1], x, y);
    }
  }

  // ---- Whole histories ----

  /** A history: what was done, in order, and the states in between. */
  ghost predicate History(rs: seq<Reg>, es: seq<Event>, shared: set<FP>) {
    |rs| == |es| + 1 && rs[0] == EMPTY && forall i :: 0 <= i < |es| ==> Follows(rs[i], es[i], rs[i + 1], shared)
  }

  predicate Follows(r: Reg, e: Event, r': Reg, shared: set<FP>) { Enabled(r, e) && r' == Apply(r, shared, e) }

  lemma {:induction false} HistoryKeeps(rs: seq<Reg>, es: seq<Event>, shared: set<FP>, k: nat)
    requires History(rs, es, shared) && k <= |es|
    ensures Inv(rs[k], shared)
  {
    if k == 0 {
      EmptyKeeps(shared);
    } else {
      HistoryKeeps(rs, es, shared, k - 1);
      assert Follows(rs[k - 1], es[k - 1], rs[k], shared);
      NextKeeps(rs[k - 1], shared, es[k - 1]);
    }
  }

  /** `s` was let in by step `i` and has not left since. */
  ghost predicate SinceJoining(rs: seq<Reg>, es: seq<Event>, shared: set<FP>, fp: FP, s: Session, i: nat, k: nat)
    requires |rs| == |es| + 1 && k <= |es|
  {
    i < k && Joins(rs[i], shared, es[i], fp, s) && forall j :: i < j < k ==> !Leaves(rs[j], es[j], fp, s)
  }

  /** A session is in the pool exactly if it was let in and has not left since: a session that serves is not displaced,
      and none is there that was refused or has been taken out. */
  lemma {:induction false} PooledExactly(rs: seq<Reg>, es: seq<Event>, shared: set<FP>, fp: FP, s: Session, k: nat)
    requires History(rs, es, shared) && k <= |es|
    ensures s in Pool(rs[k], fp) <==> exists i: nat :: SinceJoining(rs, es, shared, fp, s, i, k)
  {
    if k > 0 {
      var n := k - 1;
      PooledExactly(rs, es, shared, fp, s, n);
      HistoryKeeps(rs, es, shared, n);
      assert Follows(rs[n], es[n], rs[k], shared);
      PoolAfter(rs[n], shared, es[n], fp);
      if Joins(rs[n], shared, es[n], fp, s) {
        assert SinceJoining(rs, es, shared, fp, s, n, k);
      } else {
        StepSince(rs, es, shared, fp, s, n, k);
      }
    }
  }

  lemma StepSince(rs: seq<Reg>, es: seq<Event>, shared: set<FP>, fp: FP, s: Session, n: nat, k: nat)
    requires |rs| == |es| + 1 && k == n + 1 <= |es| && !Joins(rs[n], shared, es[n], fp, s)
    ensures (exists i: nat :: SinceJoining(rs, es, shared, fp, s, i, k)) <==>
      (exists i: nat :: SinceJoining(rs, es, shared, fp, s, i, n)) && !Leaves(rs[n], es[n], fp, s)
  {
    if i: nat :| SinceJoining(rs, es, shared, fp, s, i, k) {
      assert SinceJoining(rs, es, shared, fp, s, i, n) && !Leaves(rs[n], es[n], fp, s);
    }
    if !Leaves(rs[n], es[n], fp, s) {
      forall i: nat | SinceJoining(rs, es, shared, fp, s, i, n) ensures SinceJoining(rs, es, shared, fp, s, i, k) {}
    }
  }

  // ---- Who is tracked ----

  predicate Tracks(r: Reg, e: Event, fp: FP, s: Session) { e == Tracking(fp, s) && Admit(r, fp).TrackOK? }

  lemma TrackedAfter(r: Reg, shared: set<FP>, e: Event, fp: FP, s: Session)
    requires Enabled(r, e)
    ensures var r' := Apply(r, shared, e);
      && (s in r'.all && r'.all[s].fp == fp <==>
            Tracks(r, e, fp, s) || (s in r.all && r.all[s].fp == fp && e != Dropping(s)))
      && (s in r'.all && r'.all[s] == Tracked(fp, true) <==>
            Joins(r, shared, e, fp, s) || (s in r.all && r.all[s] == Tracked(fp, true) && e != Dropping(s)))
  {}

  ghost predicate NotDropped(es: seq<Event>, s: Session, i: nat, k: nat)
    requires k <= |es|
  {
    i < k && forall j :: i < j < k ==> es[j] != Dropping(s)
  }

  ghost predicate SinceTracked(rs: seq<Reg>, es: seq<Event>, fp: FP, s: Session, i: nat, k: nat)
    requires |rs| == |es| + 1 && k <= |es|
  {
    NotDropped(es, s, i, k) && Tracks(rs[i], es[i], fp, s)
  }

  ghost predicate SinceLetIn(rs: seq<Reg>, es: seq<Event>, shared: set<FP>, fp: FP, s: Session, i: nat, k: nat)
    requires |rs| == |es| + 1 && k <= |es|
  {
    NotDropped(es, s, i, k) && Joins(rs[i], shared, es[i], fp, s)
  }

  lemma NotDroppedStep(es: seq<Event>, s: Session, n: nat, k: nat)
    requires k == n + 1 <= |es|
    ensures forall i: nat :: NotDropped(es, s, i, k) <==> i == n || (NotDropped(es, s, i, n) && es[n] != Dropping(s))
  {}

  /** A session is tracked under a fingerprint exactly from when it was, until it is dropped, and it counts among the
      joined exactly from when it was let in: being taken out of the pool does not end that. */
  lemma {:induction false} TrackedExactly(rs: seq<Reg>, es: seq<Event>, shared: set<FP>, fp: FP, s: Session, k: nat)
    requires History(rs, es, shared) && k <= |es|
    ensures s in rs[k].all && rs[k].all[s].fp == fp <==> exists i: nat :: SinceTracked(rs, es, fp, s, i, k)
    ensures s in rs[k].all && rs[k].all[s] == Tracked(fp, true) <==>
      exists i: nat :: SinceLetIn(rs, es, shared, fp, s, i, k)
  {
    if k > 0 {
      var n := k - 1;
      TrackedExactly(rs, es, shared, fp, s, n);
      assert Follows(rs[n], es[n], rs[k], shared);
      TrackedAfter(rs[n], shared, es[n], fp, s);
      NotDroppedStep(es, s, n, k);
      assert Tracks(rs[n], es[n], fp, s) ==> SinceTracked(rs, es, fp, s, n, k);
      assert Joins(rs[n], shared, es[n], fp, s) ==> SinceLetIn(rs, es, shared, fp, s, n, k);
      assert forall i: nat :: i < n && es[n] != Dropping(s) ==>
        (SinceTracked(rs, es, fp, s, i, n) <==> SinceTracked(rs, es, fp, s, i, k));
      assert forall i: nat :: i < n && es[n] != Dropping(s) ==>
        (SinceLetIn(rs, es, shared, fp, s, i, n) <==> SinceLetIn(rs, es, shared, fp, s, i, k));
    }
  }

  // ---- Candidates ----

  lemma {:induction false} PoolOfHas(r: Reg, fps: seq<FP>, s: Session)
    ensures s in PoolOf(r, fps) <==> exists i :: 0 <= i < |fps| && s in Pool(r, fps[i])
  {
    if fps != [] {
      var front := fps[..|fps| - 1];
      PoolOfHas(r, front, s);
      if s in PoolOf(r, front) { var i :| 0 <= i < |front| && s in Pool(r, front[i]); assert fps[i] == front[i]; }
      if i :| 0 <= i < |fps| && s in Pool(r, fps[i]) { assert i < |front| ==> front[i] == fps[i]; }
    }
  }

  lemma {:induction false} PoolOfSplit(r: Reg, a: seq<FP>, b: seq<FP>)
    ensures PoolOf(r, a + b) == PoolOf(r, a) + PoolOf(r, b)
  {
    if b == [] {
      assert a + b == a;
    } else {
      PoolOfSplit(r, a, b[..|b| - 1]);
      assert (a + b)[..|a + b| - 1] == a + b[..|b| - 1];
    }
  }

  /** The sessions `candidates` offers: every open pooled one of the fingerprints asked for and no other, and
      fingerprint by fingerprint in the order asked for, each in the order of its pool. */
  lemma CandidatesMean(r: Reg, a: seq<FP>, fp: FP, b: seq<FP>, s: Session)
    ensures var fps := a + [fp] + b;
      var live, dead := Among(PoolOf(r, fps), r.gone, false), Among(PoolOf(r, fps), r.gone, true);
      && (s in live <==> s !in r.gone && exists i :: 0 <= i < |fps| && s in Pool(r, fps[i]))
      && (s in dead <==> s in r.gone && exists i :: 0 <= i < |fps| && s in Pool(r, fps[i]))
      && live == Among(PoolOf(r, a), r.gone, false) + Alive(Pool(r, fp), r.gone) + Among(PoolOf(r, b), r.gone, false)
  {
    PoolOfHas(r, a + [fp] + b, s);
    PoolOfSplit(r, a + [fp], b);
    PoolOfSplit(r, a, [fp]);
    assert PoolOf(r, [fp]) == Pool(r, fp) by { assert [fp][..0] == []; }
    AmongJoin(PoolOf(r, a + [fp]), PoolOf(r, b), r.gone, false);
    AmongJoin(PoolOf(r, a), Pool(r, fp), r.gone, false);
  }
}

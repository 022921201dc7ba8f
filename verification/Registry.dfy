/** The edge's registry of agent sessions: its operations as functions on its state, the class whose methods compute
    them, and what every sequence of them keeps. Each operation is one section under the registry's lock; sessions
    close by themselves at any time. */
module Registries {
  import opened Basics

  type FP = string
  type Session = nat
  type Channel = nat

  const MAX_SHARED_SESSIONS := 256

  datatype Tracked = Tracked(fp: FP, joined: bool)
  datatype Registration = Registered | RefusedDuplicate | RefusedCap | RefusedGone
  datatype TrackResult = TrackOK | TrackClosing | TrackCapped

  /** `gone`: sessions that have closed. `woken`: channels that are closed. */
  datatype Reg = Reg(byFP: map<FP, seq<Session>>, all: map<Session, Tracked>, joined: map<FP, int>,
                     pending: map<FP, int>, closing: bool, joinedCh: Channel, woken: set<Channel>,
                     gone: set<Session>)

  const EMPTY := Reg(map[], map[], map[], map[], false, 0, {}, {})

  function Pool(r: Reg, fp: FP): seq<Session> { if fp in r.byFP then r.byFP[fp] else [] }
  function Value(m: map<FP, int>, fp: FP): int { if fp in m then m[fp] else 0 }

  /** `m[fp]++`, and `m[fp]--` where an entry that falls to zero is deleted. */
  function Up(m: map<FP, int>, fp: FP): map<FP, int> { m[fp := Value(m, fp) + 1] }
  function Down(m: map<FP, int>, fp: FP): map<FP, int> {
    if Value(m, fp) - 1 <= 0 then m - {fp} else m[fp := Value(m, fp) - 1]
  }

  function Put(m: map<FP, seq<Session>>, fp: FP, s: seq<Session>): map<FP, seq<Session>> {
    if s == [] then m - {fp} else m[fp := s]
  }

  /** The sessions of a list that are in or not in a set, in order. */
  function Among(s: seq<Session>, x: set<Session>, member: bool): (r: seq<Session>)
    ensures forall c :: c in r <==> c in s && ((c in x) == member)
    ensures |r| <= |s|
  {
    if s == [] then [] else Among(s[..|s| - 1], x, member) + if (s[|s| - 1] in x) == member then [s[|s| - 1]] else []
  }

  function Alive(s: seq<Session>, gone: set<Session>): seq<Session> { Among(s, gone, false) }

  lemma {:induction false} AmongNoRepeat(s: seq<Session>, x: set<Session>, member: bool)
    requires NoRepeat(s)
    ensures NoRepeat(Among(s, x, member))
  {
    if s != [] {
      AmongNoRepeat(s[..|s| - 1], x, member);
      assert s[|s| - 1] !in s[..|s| - 1];
    }
  }

  lemma {:induction false} AmongAll(s: seq<Session>, x: set<Session>, member: bool)
    requires forall c <- s :: (c in x) == member
    ensures Among(s, x, member) == s
  {
    if s != [] {
      var front, last := s[..|s| - 1], s[|s| - 1];
      assert s == front + [last];
      assert last in s && forall c <- front :: c in s;
      AmongAll(front, x, member);
    }
  }

  // ---- Operations ----

  /** `liveLocked`. */
  function Swept(r: Reg, fp: FP): Reg { r.(byFP := Put(r.byFP, fp, Alive(Pool(r, fp), r.gone))) }

  function Verdict(r: Reg, shared: set<FP>, fp: FP, s: Session): Registration {
    if r.closing || s in r.gone then RefusedGone
    else if fp !in shared && Alive(Pool(r, fp), r.gone) != [] then RefusedDuplicate
    else if Value(r.joined, fp) >= MAX_SHARED_SESSIONS then RefusedCap
    else Registered
  }

  function Join(r: Reg, fp: FP, s: Session): Reg {
    var pooled := r.(byFP := r.byFP[fp := Pool(r, fp) + [s]], woken := r.woken + {r.joinedCh},
                     joinedCh := r.joinedCh + 1);
    if s in r.all && !r.all[s].joined then
      pooled.(all := r.all[s := r.all[s].(joined := true)], joined := Up(r.joined, fp), pending := Down(r.pending, fp))
    else pooled
  }

  /** `registerConn`. */
  function Register(r: Reg, shared: set<FP>, fp: FP, s: Session): Reg {
    if Verdict(r, shared, fp, s).Registered? then Join(Swept(r, fp), fp, s) else Swept(r, fp)
  }

  function Admit(r: Reg, fp: FP): TrackResult {
    if r.closing then TrackClosing else if Value(r.pending, fp) >= MAX_SHARED_SESSIONS then TrackCapped else TrackOK
  }

  /** `track`. */
  function Track(r: Reg, fp: FP, s: Session): Reg {
    if Admit(r, fp).TrackOK? then r.(all := r.all[s := Tracked(fp, false)], pending := Up(r.pending, fp)) else r
  }

  /** `take`. */
  function Take(r: Reg, fp: FP, s: Session): Reg { r.(byFP := Put(r.byFP, fp, Among(Pool(r, fp), {s}, false))) }

  /** `drop`. */
  function Drop(r: Reg, s: Session): Reg {
    if s !in r.all then r
    else
      var t := r.all[s];
      var r' := Take(r, t.fp, s).(all := r.all - {s});
      if t.joined then r'.(joined := Down(r.joined, t.fp)) else r'.(pending := Down(r.pending, t.fp))
  }

  // ---- What every operation keeps ----

  ghost function Count(all: map<Session, Tracked>, t: Tracked): nat { |With(all, t)| }
  ghost function With(all: map<Session, Tracked>, t: Tracked): set<Session> { set s | s in all && all[s] == t }

  /** A counter is exact, at most 256, and stores no zero. */
  ghost predicate Counts(m: map<FP, int>, all: map<Session, Tracked>, joined: bool) {
    && (forall fp: FP :: Value(m, fp) == Count(all, Tracked(fp, joined)) <= MAX_SHARED_SESSIONS)
    && (forall fp <- m :: m[fp] > 0)
  }

  ghost predicate Counted(r: Reg) { Counts(r.joined, r.all, true) && Counts(r.pending, r.all, false) }

  /** Pooled sessions are tracked as joined under their fingerprint, each once; no list is empty, and one that is not
      shared has one session at most. */
  ghost predicate Pooled(byFP: map<FP, seq<Session>>, all: map<Session, Tracked>, shared: set<FP>) {
    && (forall fp <- byFP :: byFP[fp] != [] && NoRepeat(byFP[fp]))
    && (forall fp <- byFP :: forall s <- byFP[fp] :: s in all && all[s] == Tracked(fp, true))
    && (forall fp <- byFP :: fp !in shared ==> |byFP[fp]| <= 1)
  }

  /** Closed channels are the ones handed out before the current one. */
  ghost predicate Channels(r: Reg) { forall ch: Channel :: ch in r.woken <==> ch < r.joinedCh }

  ghost predicate Inv(r: Reg, shared: set<FP>) { Counted(r) && Pooled(r.byFP, r.all, shared) && Channels(r) }

  // ---- Counting ----

  lemma Retag(all: map<Session, Tracked>, s: Session, t: Tracked, u: Tracked)
    ensures Count(all[s := t], u) == Count(all, u) + One(t == u) - One(s in all && all[s] == u)
  {
    Recount(With(all, u), With(all[s := t], u), s);
  }

  lemma Untag(all: map<Session, Tracked>, s: Session, u: Tracked)
    requires s in all
    ensures Count(all - {s}, u) == Count(all, u) - (if all[s] == u then 1 else 0)
  {
    var a, a' := With(all, u), With(all - {s}, u);
    assert a' == a - {s};
  }

  /** A counter moves with the one count that does. */
  lemma CountsMove(m: map<FP, int>, all: map<Session, Tracked>, m': map<FP, int>, all': map<Session, Tracked>,
                   joined: bool, fp: FP, d: int)
    requires Counts(m, all, joined) && -1 <= d <= 1
    requires m' == if d == 1 then Up(m, fp) else if d == -1 then Down(m, fp) else m
    requires forall u: Tracked :: u.joined == joined ==> Count(all', u) == Count(all, u) + if u.fp == fp then d else 0
    requires d == 1 ==> Value(m, fp) < MAX_SHARED_SESSIONS
    ensures Counts(m', all', joined)
  {
    forall g: FP ensures Value(m', g) == Count(all', Tracked(g, joined)) <= MAX_SHARED_SESSIONS {
      assert Value(m, g) == Count(all, Tracked(g, joined));
    }
  }

  lemma TrackKeeps(r: Reg, shared: set<FP>, fp: FP, s: Session)
    requires Inv(r, shared) && s !in r.all
    ensures Inv(Track(r, fp, s), shared)
  {
    if Admit(r, fp).TrackOK? {
      forall u: Tracked { Retag(r.all, s, Tracked(fp, false), u); }
      var r' := Track(r, fp, s);
      CountsMove(r.pending, r.all, r'.pending, r'.all, false, fp, 1);
      CountsMove(r.joined, r.all, r'.joined, r'.all, true, fp, 0);
    }
  }

  lemma SweptKeeps(r: Reg, shared: set<FP>, fp: FP)
    requires Inv(r, shared)
    ensures Inv(Swept(r, fp), shared)
  {
    AmongNoRepeat(Pool(r, fp), r.gone, false);
  }

  lemma TakeKeeps(r: Reg, shared: set<FP>, fp: FP, s: Session)
    requires Inv(r, shared)
    ensures Inv(Take(r, fp, s), shared)
  {
    AmongNoRepeat(Pool(r, fp), {s}, false);
  }

  lemma DropKeeps(r: Reg, shared: set<FP>, s: Session)
    requires Inv(r, shared)
    ensures Inv(Drop(r, s), shared)
  {
    if s in r.all {
      var t, r' := r.all[s], Drop(r, s);
      TakeKeeps(r, shared, t.fp, s);
      forall u: Tracked { Untag(r.all, s, u); }
      CountsMove(r.joined, r.all, r'.joined, r'.all, true, t.fp, if t.joined then -1 else 0);
      CountsMove(r.pending, r.all, r'.pending, r'.all, false, t.fp, if t.joined then 0 else -1);
    }
  }

  /** A tracked session that has not joined joins under its fingerprint. */
  lemma JoinKeeps(r: Reg, shared: set<FP>, fp: FP, s: Session)
    requires Inv(r, shared) && s in r.all && r.all[s] == Tracked(fp, false)
    requires Value(r.joined, fp) < MAX_SHARED_SESSIONS && (fp !in shared ==> Pool(r, fp) == [])
    ensures Inv(Join(r, fp, s), shared)
  {
    var r' := Join(r, fp, s);
    forall u: Tracked { Retag(r.all, s, Tracked(fp, true), u); }
    CountsMove(r.joined, r.all, r'.joined, r'.all, true, fp, 1);
    CountsMove(r.pending, r.all, r'.pending, r'.all, false, fp, -1);
    JoinPooled(r, shared, fp, s);
  }

  lemma JoinPooled(r: Reg, shared: set<FP>, fp: FP, s: Session)
    requires Pooled(r.byFP, r.all, shared) && s in r.all && r.all[s] == Tracked(fp, false)
    requires fp !in shared ==> Pool(r, fp) == []
    ensures Pooled(Join(r, fp, s).byFP, Join(r, fp, s).all, shared)
  {
    assert s !in Pool(r, fp);
  }

  lemma RegisterKeeps(r: Reg, shared: set<FP>, fp: FP, s: Session)
    requires Inv(r, shared) && s in r.all && r.all[s] == Tracked(fp, false)
    ensures Inv(Register(r, shared, fp, s), shared)
  {
    SweptKeeps(r, shared, fp);
    if Verdict(r, shared, fp, s).Registered? { JoinKeeps(Swept(r, fp), shared, fp, s); }
  }

  // ---- The class ----

  class Registry {
    var byFP: map<FP, seq<Session>>
    var all: map<Session, Tracked>
    var joined: map<FP, int>
    var pending: map<FP, int>
    const shared: set<FP>
    var closing: bool
    var joinedCh: Channel
    ghost var woken: set<Channel>
    var gone: set<Session>  // what `IsClosed` says

    ghost function View(): Reg reads this { Reg(byFP, all, joined, pending, closing, joinedCh, woken, gone) }

    ghost predicate Valid() reads this { Inv(View(), shared) }

    constructor (shared: set<FP>)
      ensures Valid() && View() == EMPTY && this.shared == shared
    {
      this.shared := shared;
      byFP, all, joined, pending, closing, joinedCh, woken, gone := map[], map[], map[], map[], false, 0, {}, {};
      new;
      EmptyKeeps(shared);
    }

    /** A channel that is open until the next session joins. */
    method Joins() returns (ch: Channel)
      requires Valid()
      ensures ch == joinedCh && ch !in woken
    {
      ch := joinedCh;
    }

    method LiveLocked(fp: FP) returns (live: seq<Session>)
      requires Valid()
      modifies this
      ensures Valid() && View() == Swept(old(View()), fp) && live == Pool(View(), fp)
    {
      SweptKeeps(View(), shared, fp);
      live := Sweep(fp);
    }

    method Sweep(fp: FP) returns (live: seq<Session>)
      requires fp in byFP ==> byFP[fp] != []
      modifies this`byFP
      ensures View() == Swept(old(View()), fp) && live == Pool(View(), fp)
    {
      var conns := if fp in byFP then byFP[fp] else [];
      var dead: seq<Session>;
      live, dead := Split(conns);
      if |live| == |conns| {
        AmongFull(conns, gone, false);
        assert Put(byFP, fp, live) == byFP;
      } else if live == [] {
        byFP := byFP - {fp};
      } else {
        byFP := byFP[fp := live];
      }
    }

    method HasLiveExclusive(fp: FP) returns (b: bool)
      requires Valid()
      modifies this
      ensures Valid() && View() == Swept(old(View()), fp)
      ensures b <==> fp !in shared && exists s <- Pool(View(), fp) :: s !in gone
    {
      var live := LiveLocked(fp);
      if live != [] { assert live[0] in Pool(View(), fp); }
      return fp !in shared && live != [];
    }

    method UnpendLocked(fp: FP)
      modifies this`pending
      ensures pending == Down(old(pending), fp)
    {
      var n := (if fp in pending then pending[fp] else 0) - 1;
      pending := if n <= 0 then pending - {fp} else pending[fp := n];
    }

    /** `registerConn`, for a session that is tracked under `fp` and has not joined. */
    method RegisterConn(fp: FP, s: Session) returns (result: Registration, pooled: nat)
      requires Valid() && s in all && all[s] == Tracked(fp, false)
      modifies this
      ensures Valid() && View() == Register(old(View()), shared, fp, s)
      ensures result == Verdict(old(View()), shared, fp, s)
      ensures pooled == if result.Registered? then |Pool(View(), fp)| else 0
    {
      RegisterKeeps(View(), shared, fp, s);
      var live := LiveLocked(fp);
      if closing || s in gone { return RefusedGone, 0; }
      if fp !in shared && |live| > 0 { return RefusedDuplicate, 0; }
      if (if fp in joined then joined[fp] else 0) >= MAX_SHARED_SESSIONS { return RefusedCap, 0; }
      JoinLocked(fp, s, live);
      return Registered, |byFP[fp]|;
    }

    method JoinLocked(fp: FP, s: Session, live: seq<Session>)
      requires live == Pool(View(), fp)
      modifies this
      ensures View() == Join(old(View()), fp, s)
    {
      byFP := byFP[fp := live + [s]];
      woken := woken + {joinedCh};
      joinedCh := joinedCh + 1;
      if s in all && !all[s].joined {
        all := all[s := all[s].(joined := true)];
        joined := joined[fp := (if fp in joined then joined[fp] else 0) + 1];
        UnpendLocked(fp);
      }
    }

    /** `track`, for a new session. */
    method TrackSession(fp: FP, s: Session) returns (result: TrackResult)
      requires Valid() && s !in all
      modifies this
      ensures Valid() && View() == Track(old(View()), fp, s) && result == Admit(old(View()), fp)
    {
      TrackKeeps(View(), shared, fp, s);
      if closing { return TrackClosing; }
      var n := if fp in pending then pending[fp] else 0;
      if n >= MAX_SHARED_SESSIONS { return TrackCapped; }
      all := all[s := Tracked(fp, false)];
      pending := pending[fp := n + 1];
      return TrackOK;
    }

    /** `removeLocked`. */
    method RemoveLocked(fp: FP, s: Session)
      requires Pooled(byFP, all, shared)
      modifies this`byFP
      ensures View() == Take(old(View()), fp, s)
    {
      var conns := if fp in byFP then byFP[fp] else [];
      var found, rest := Without(conns, s);
      if found {
        if rest == [] { byFP := byFP - {fp}; } else { byFP := byFP[fp := rest]; }
      } else {
        assert Put(byFP, fp, conns) == byFP;
      }
    }

    method Without(conns: seq<Session>, s: Session) returns (found: bool, rest: seq<Session>)
      requires NoRepeat(conns)
      ensures rest == Among(conns, {s}, false) && found == (s in conns) && (!found ==> rest == conns)
    {
      for i := 0 to |conns|
        invariant forall j :: 0 <= j < i ==> conns[j] != s
      {
        if conns[i] == s {
          assert conns == conns[..i] + [s] + conns[i + 1..];
          AmongRest(conns[..i], s, conns[i + 1..]);
          return true, conns[..i] + conns[i + 1..];
        }
      }
      AmongAll(conns, {s}, false);
      return false, conns;
    }

    method TakeOut(fp: FP, s: Session)
      requires Valid()
      modifies this`byFP
      ensures Valid() && View() == Take(old(View()), fp, s)
    {
      TakeKeeps(View(), shared, fp, s);
      RemoveLocked(fp, s);
    }

    method DropSession(s: Session)
      requires Valid()
      modifies this
      ensures Valid() && View() == Drop(old(View()), s)
    {
      DropKeeps(View(), shared, s);
      DropLocked(s);
    }

    method DropLocked(s: Session)
      requires Pooled(byFP, all, shared)
      modifies this
      ensures View() == Drop(old(View()), s)
    {
      if s in all {
        var t := all[s];
        RemoveLocked(t.fp, s);
        if t.joined {
          var n := (if t.fp in joined then joined[t.fp] else 0) - 1;
          joined := if n <= 0 then joined - {t.fp} else joined[t.fp := n];
        } else {
          UnpendLocked(t.fp);
        }
        all := all - {s};
      }
    }

    /** `candidates`: the pooled sessions of the fingerprints in order, the open and the closed ones apart. */
    method Candidates(fps: seq<FP>) returns (live: seq<Session>, dead: seq<Session>)
      requires Valid()
      ensures live == Among(PoolOf(View(), fps), gone, false) && dead == Among(PoolOf(View(), fps), gone, true)
    {
      live, dead := [], [];
      for i := 0 to |fps|
        invariant live == Among(PoolOf(View(), fps[..i]), gone, false)
        invariant dead == Among(PoolOf(View(), fps[..i]), gone, true)
      {
        var conns := if fps[i] in byFP then byFP[fps[i]] else [];
        var l, d := Split(conns);
        assert fps[..i + 1][..i] == fps[..i];
        AmongJoin(PoolOf(View(), fps[..i]), conns, gone, false);
        AmongJoin(PoolOf(View(), fps[..i]), conns, gone, true);
        live, dead := live + l, dead + d;
      }
      assert fps[..|fps|] == fps;
    }

    method Split(conns: seq<Session>) returns (live: seq<Session>, dead: seq<Session>)
      ensures live == Among(conns, gone, false) && dead == Among(conns, gone, true)
    {
      live, dead := [], [];
      for i := 0 to |conns|
        invariant live == Among(conns[..i], gone, false) && dead == Among(conns[..i], gone, true)
      {
        assert conns[..i + 1][..i] == conns[..i];
        if conns[i] in gone { dead := dead + [conns[i]]; } else { live := live + [conns[i]]; }
      }
      assert conns[..|conns|] == conns;
    }

    /** The section of `closeAll` under the lock; the caller then closes every session of `sessions`. */
    method CloseAll() returns (sessions: set<Session>)
      requires Valid()
      modifies this`closing
      ensures Valid() && View() == old(View()).(closing := true) && sessions == all.Keys
    {
      closing := true;
      sessions := all.Keys;
    }
  }

  function PoolOf(r: Reg, fps: seq<FP>): seq<Session> {
    if fps == [] then [] else PoolOf(r, fps[..|fps| - 1]) + Pool(r, fps[|fps| - 1])
  }

  function IfIn(c: Session, x: set<Session>, member: bool): seq<Session> { if (c in x) == member then [c] else [] }

  lemma AmongSnoc(s: seq<Session>, c: Session, x: set<Session>, member: bool)
    ensures Among(s + [c], x, member) == Among(s, x, member) + IfIn(c, x, member)
  {
    assert (s + [c])[..|s|] == s;
  }

  lemma {:induction false} AmongJoin(a: seq<Session>, b: seq<Session>, x: set<Session>, member: bool)
    ensures Among(a + b, x, member) == Among(a, x, member) + Among(b, x, member)
  {
    if b == [] {
      assert a + b == a;
    } else {
      var b', c := b[..|b| - 1], b[|b| - 1];
      AmongJoin(a, b', x, member);
      assert b == b' + [c];
      Assoc(a, b', [c]);
      AmongSnoc(a + b', c, x, member);
      AmongSnoc(b', c, x, member);
      Assoc(Among(a, x, member), Among(b', x, member), IfIn(c, x, member));
    }
  }

  lemma {:induction false} AmongFull(s: seq<Session>, x: set<Session>, member: bool)
    requires |Among(s, x, member)| == |s|
    ensures Among(s, x, member) == s
  {
    if s != [] {
      AmongFull(s[..|s| - 1], x, member);
      assert s[..|s| - 1] + [s[|s| - 1]] == s;
    }
  }

  lemma AmongRest(a: seq<Session>, c: Session, b: seq<Session>)
    requires c !in a && c !in b
    ensures Among(a + [c] + b, {c}, false) == a + b
  {
    var x := {c};
    assert Among(a + [c], x, false) == a by {
      AmongAll(a, x, false);
      AmongSnoc(a, c, x, false);
      assert a + [] == a;
    }
    assert Among(b, x, false) == b by { AmongAll(b, x, false); }
    AmongJoin(a + [c], b, x, false);
  }

  lemma EmptyKeeps(shared: set<FP>)
    ensures Inv(EMPTY, shared)
  {
    forall t: Tracked ensures Count(EMPTY.all, t) == 0 { assert With(EMPTY.all, t) == {}; }
  }

  // ---- Over whole runs ----

  datatype Event =
    | Tracking(fp: FP, s: Session)    // a new session
    | Registering(fp: FP, s: Session) // by the goroutine that tracked it
    | Dropping(s: Session)
    | Taking(fp: FP, s: Session)      // retired or evicted
    | Looking(fp: FP)                 // hasLiveExclusive
    | Closes(s: Session)              // the session closes, whoever closed it
    | ShuttingDown                    // closeAll, under the lock
    | Elsewhere                       // a step that does not touch the registry

  predicate Enabled(r: Reg, e: Event) {
    match e
    case Tracking(_, s) => s !in r.all
    case Registering(fp, s) => s in r.all && r.all[s] == Tracked(fp, false)
    case _ => true
  }

  function Apply(r: Reg, shared: set<FP>, e: Event): Reg {
    match e
    case Tracking(fp, s) => Track(r, fp, s)
    case Registering(fp, s) => Register(r, shared, fp, s)
    case Dropping(s) => Drop(r, s)
    case Taking(fp, s) => Take(r, fp, s)
    case Looking(fp) => Swept(r, fp)
    case Closes(s) => r.(gone := r.gone + {s})
    case ShuttingDown => r.(closing := true)
    case Elsewhere => r
  }

  ghost predicate Next(r: Reg, r': Reg, shared: set<FP>) { exists e :: Enabled(r, e) && r' == Apply(r, shared, e) }

  ghost predicate Run(rs: seq<Reg>, shared: set<FP>) {
    rs != [] && rs[0] == EMPTY && forall i: nat :: i < |rs| - 1 ==> NextAt(rs, i, shared)
  }

  ghost predicate NextAt(rs: seq<Reg>, i: nat, shared: set<FP>)
    requires i + 1 < |rs|
  {
    Next(rs[i], rs[i + 1], shared)
  }

  lemma {:induction false} RunKeeps(rs: seq<Reg>, shared: set<FP>, k: nat)
    requires Run(rs, shared) && k < |rs|
    ensures Inv(rs[k], shared)
  {
    if k == 0 {
      EmptyKeeps(shared);
    } else {
      RunKeeps(rs, shared, k - 1);
      var r := rs[k - 1];
      assert NextAt(rs, k - 1, shared);
      var e: Event :| Enabled(r, e) && rs[k] == Apply(r, shared, e);
      NextKeeps(r, shared, e);
    }
  }

  lemma NextKeeps(r: Reg, shared: set<FP>, e: Event)
    requires Inv(r, shared) && Enabled(r, e)
    ensures Inv(Apply(r, shared, e), shared)
  {
    match e
    case Tracking(fp, s) => TrackKeeps(r, shared, fp, s);
    case Registering(fp, s) => RegisterKeeps(r, shared, fp, s);
    case Dropping(s) => DropKeeps(r, shared, s);
    case Taking(fp, s) => TakeKeeps(r, shared, fp, s);
    case Looking(fp) => SweptKeeps(r, shared, fp);
    case _ =>
  }

  /** In every state the counters are exact and capped, a pooled session is tracked under its fingerprint, and one
      that is not shared has at most one pooled session. */
  lemma CountsExact(rs: seq<Reg>, shared: set<FP>, k: nat, fp: FP)
    requires Run(rs, shared) && k < |rs|
    ensures Value(rs[k].joined, fp) == |set s | s in rs[k].all && rs[k].all[s] == Tracked(fp, true)| <= 256
    ensures Value(rs[k].pending, fp) == |set s | s in rs[k].all && rs[k].all[s] == Tracked(fp, false)| <= 256
    ensures fp !in shared ==> |Pool(rs[k], fp)| <= 1
    ensures forall s <- Pool(rs[k], fp) :: s in rs[k].all && rs[k].all[s] == Tracked(fp, true)
    ensures |Pool(rs[k], fp)| <= Value(rs[k].joined, fp)
  {
    RunKeeps(rs, shared, k);
    var r := rs[k];
    assert With(r.all, Tracked(fp, true)) == set s | s in r.all && r.all[s] == Tracked(fp, true);
    assert With(r.all, Tracked(fp, false)) == set s | s in r.all && r.all[s] == Tracked(fp, false);
    MembersOf(Pool(r, fp));
    Subset(Members(Pool(r, fp)), With(r.all, Tracked(fp, true)));
  }

  lemma Subset(a: set<Session>, b: set<Session>)
    requires a <= b
    ensures |a| <= |b|
  {
    assert b == a + (b - a);
  }

  /** A session appears in the pool. */
  ghost predicate SomeoneJoins(r: Reg, r': Reg) { exists fp, s :: s in Pool(r', fp) && s !in Pool(r, fp) }

  ghost predicate Onward(r: Reg, r': Reg) {
    && r.joinedCh <= r'.joinedCh && r.gone <= r'.gone
    && (r.closing ==> r'.closing && r'.all.Keys <= r.all.Keys && r'.joinedCh == r.joinedCh)
  }

  lemma NextOnward(r: Reg, shared: set<FP>, e: Event)
    requires Enabled(r, e)
    ensures Onward(r, Apply(r, shared, e))
  {}

  lemma NextJoins(r: Reg, shared: set<FP>, e: Event)
    requires Inv(r, shared) && Enabled(r, e)
    ensures SomeoneJoins(r, Apply(r, shared, e)) <==> r.joinedCh < Apply(r, shared, e).joinedCh
  {
    var r' := Apply(r, shared, e);
    if e.Registering? && Verdict(r, shared, e.fp, e.s).Registered? {
      assert e.s in Pool(r', e.fp) && e.s !in Pool(r, e.fp);
    }
  }

  lemma {:induction false} RunOnward(rs: seq<Reg>, shared: set<FP>, k: nat, m: nat)
    requires Run(rs, shared) && k <= m < |rs|
    ensures Onward(rs[k], rs[m])
  {
    if k < m {
      RunOnward(rs, shared, k, m - 1);
      assert NextAt(rs, m - 1, shared);
      var e: Event :| Enabled(rs[m - 1], e) && rs[m] == Apply(rs[m - 1], shared, e);
      NextOnward(rs[m - 1], shared, e);
    }
  }

  /** `drop` takes `s` out at step `i`. */
  ghost predicate DropsAt(rs: seq<Reg>, i: nat, s: Session)
    requires i + 1 < |rs|
  {
    s in rs[i].all && rs[i + 1] == Drop(rs[i], s)
  }

  ghost predicate DroppedBetween(rs: seq<Reg>, k: nat, m: nat, s: Session)
    requires m < |rs|
  {
    exists i :: k <= i < m && DropsAt(rs, i, s)
  }

  lemma {:induction false} LeavesByDrop(rs: seq<Reg>, shared: set<FP>, k: nat, m: nat, s: Session)
    requires Run(rs, shared) && k <= m < |rs| && s in rs[k].all && s !in rs[m].all
    ensures DroppedBetween(rs, k, m, s)
  {
    if s !in rs[m - 1].all {
      LeavesByDrop(rs, shared, k, m - 1, s);
      var i: nat :| k <= i < m - 1 && DropsAt(rs, i, s);
    } else {
      assert NextAt(rs, m - 1, shared);
      var e: Event :| Enabled(rs[m - 1], e) && rs[m] == Apply(rs[m - 1], shared, e);
      OnlyDrops(rs[m - 1], shared, e, s);
      assert DropsAt(rs, m - 1, s);
    }
  }

  lemma OnlyDrops(r: Reg, shared: set<FP>, e: Event, s: Session)
    requires s in r.all && s !in Apply(r, shared, e).all
    ensures e == Dropping(s)
  {}

  /** Once `closeAll` has begun nothing new is tracked and nothing joins, and nothing is tracked or pooled any more
      exactly if every session that was tracked has been dropped. */
  lemma ClosedDown(rs: seq<Reg>, shared: set<FP>, k: nat, m: nat)
    requires Run(rs, shared) && k <= m < |rs| && rs[k].closing
    ensures rs[m].all.Keys <= rs[k].all.Keys && !JoinedBetween(rs, k, m)
    ensures forall fp, s :: s in Pool(rs[m], fp) ==> s in rs[m].all
    ensures rs[m].all == map[] && rs[m].byFP == map[] <==> forall s <- rs[k].all :: DroppedBetween(rs, k, m, s)
  {
    RunOnward(rs, shared, k, m);
    RunKeeps(rs, shared, m);
    JoinsCounted(rs, shared, k, m);
    PoolTracked(rs[m], shared);
    if rs[m].all == map[] {
      forall s <- rs[k].all ensures DroppedBetween(rs, k, m, s) { LeavesByDrop(rs, shared, k, m, s); }
    } else {
      var s :| s in rs[m].all;
      if i: nat :| k <= i < m && DropsAt(rs, i, s) {
        StaysDropped(rs, shared, k, i, m, s);
        assert false;
      }
    }
  }

  lemma StaysDropped(rs: seq<Reg>, shared: set<FP>, k: nat, i: nat, m: nat, s: Session)
    requires Run(rs, shared) && k <= i < m < |rs| && rs[k].closing && DropsAt(rs, i, s)
    ensures s !in rs[m].all
  {
    RunOnward(rs, shared, k, i + 1);
    RunOnward(rs, shared, i + 1, m);
  }

  lemma PoolTracked(r: Reg, shared: set<FP>)
    requires Pooled(r.byFP, r.all, shared)
    ensures forall fp, s :: s in Pool(r, fp) ==> s in r.all
    ensures r.all == map[] ==> r.byFP == map[]
  {
    assert forall fp <- r.byFP :: r.byFP[fp][0] in r.byFP[fp];
  }

  ghost predicate JoinedBetween(rs: seq<Reg>, k: nat, m: nat)
    requires m < |rs|
  {
    exists i :: k <= i < m && JoinsAt(rs, i)
  }

  ghost predicate JoinsAt(rs: seq<Reg>, i: nat)
    requires i + 1 < |rs|
  {
    SomeoneJoins(rs[i], rs[i + 1])
  }

  lemma {:induction false} JoinsCounted(rs: seq<Reg>, shared: set<FP>, k: nat, m: nat)
    requires Run(rs, shared) && k <= m < |rs|
    ensures JoinedBetween(rs, k, m) <==> rs[k].joinedCh < rs[m].joinedCh
  {
    if k < m {
      JoinsCounted(rs, shared, k, m - 1);
      StepJoins(rs, shared, m - 1);
      RunOnward(rs, shared, k, m - 1);
      JoinedLast(rs, k, m);
    }
  }

  lemma JoinedLast(rs: seq<Reg>, k: nat, m: nat)
    requires k < m < |rs|
    ensures JoinedBetween(rs, k, m) <==> JoinedBetween(rs, k, m - 1) || JoinsAt(rs, m - 1)
  {
    if JoinsAt(rs, m - 1) { assert k <= m - 1 < m && JoinsAt(rs, m - 1); }
  }

  lemma StepJoins(rs: seq<Reg>, shared: set<FP>, k: nat)
    requires Run(rs, shared) && k + 1 < |rs|
    ensures JoinsAt(rs, k) <==> rs[k].joinedCh < rs[k + 1].joinedCh
    ensures rs[k].joinedCh <= rs[k + 1].joinedCh
  {
    RunKeeps(rs, shared, k);
    assert NextAt(rs, k, shared);
    var e: Event :| Enabled(rs[k], e) && rs[k + 1] == Apply(rs[k], shared, e);
    NextJoins(rs[k], shared, e);
    NextOnward(rs[k], shared, e);
  }

  /** No wake-up is lost: a channel taken at `k` is open then, and closed at `m` exactly if a session has joined in
      between. */
  lemma WokenExactly(rs: seq<Reg>, shared: set<FP>, k: nat, m: nat)
    requires Run(rs, shared) && k <= m < |rs|
    ensures rs[k].joinedCh !in rs[k].woken
    ensures rs[k].joinedCh in rs[m].woken <==> JoinedBetween(rs, k, m)
  {
    RunKeeps(rs, shared, k);
    RunKeeps(rs, shared, m);
    JoinsCounted(rs, shared, k, m);
  }

  /** A serving agent is not displaced: an open session leaves the pool only when it is itself taken out or dropped. */
  lemma NotDisplaced(r: Reg, shared: set<FP>, e: Event, fp: FP, s: Session)
    requires Inv(r, shared) && Enabled(r, e) && s in Pool(r, fp) && s !in r.gone
    requires s !in Pool(Apply(r, shared, e), fp)
    ensures e == Taking(fp, s) || e == Dropping(s)
  {
    if e.Registering? { RegisterSpares(r, shared, e.fp, e.s, fp, s); }
  }

  lemma RegisterSpares(r: Reg, shared: set<FP>, fp: FP, s: Session, g: FP, t: Session)
    requires t in Pool(r, g) && t !in r.gone
    ensures t in Pool(Register(r, shared, fp, s), g)
  {
    assert t in Pool(Swept(r, fp), g);
  }

  // ---- The whole of closeAll ----

  /** A call of `closeAll`: `left` are the listed sessions whose `Close` has not returned. */
  datatype Call = NotCalled | Closing(left: set<Session>) | Returned

  datatype Sys = Sys(reg: Reg, call: Call)

  datatype SysEvent = OfReg(e: Event) | Begin | CloseOne(s: Session) | Return

  predicate SysEnabled(x: Sys, e: SysEvent) {
    match e
    case OfReg(e) => Enabled(x.reg, e) && !e.ShuttingDown?
    case Begin => x.call.NotCalled?
    case CloseOne(s) => x.call.Closing? && s in x.call.left
    case Return => x.call.Closing? && x.call.left == {}
  }

  function SysApply(x: Sys, shared: set<FP>, e: SysEvent): Sys
    requires SysEnabled(x, e)
  {
    match e
    case OfReg(e) => x.(reg := Apply(x.reg, shared, e))
    case Begin => Sys(Apply(x.reg, shared, ShuttingDown), Closing(x.reg.all.Keys))
    case CloseOne(s) => Sys(Apply(x.reg, shared, Closes(s)), Closing(x.call.left - {s}))
    case Return => x.(call := Returned)
  }

  ghost predicate SysNextAt(xs: seq<Sys>, i: nat, shared: set<FP>)
    requires i + 1 < |xs|
  {
    exists e :: SysEnabled(xs[i], e) && xs[i + 1] == SysApply(xs[i], shared, e)
  }

  ghost predicate SysRun(xs: seq<Sys>, shared: set<FP>) {
    xs != [] && xs[0] == Sys(EMPTY, NotCalled) && forall i: nat :: i < |xs| - 1 ==> SysNextAt(xs, i, shared)
  }

  ghost function Regs(xs: seq<Sys>): seq<Reg> { seq(|xs|, i requires 0 <= i < |xs| => xs[i].reg) }

  /** What the step does to the registry. */
  function RegEvent(e: SysEvent): Event {
    match e case OfReg(e) => e case Begin => ShuttingDown case CloseOne(s) => Closes(s) case Return => Elsewhere
  }

  /** Everything shown of the registry's runs holds with `closeAll` running beside it. */
  lemma RegRun(xs: seq<Sys>, shared: set<FP>)
    requires SysRun(xs, shared)
    ensures Run(Regs(xs), shared)
  {
    var rs := Regs(xs);
    forall i: nat | i < |rs| - 1 ensures NextAt(rs, i, shared) {
      assert SysNextAt(xs, i, shared);
      var e: SysEvent :| SysEnabled(xs[i], e) && xs[i + 1] == SysApply(xs[i], shared, e);
      assert Enabled(rs[i], RegEvent(e)) && rs[i + 1] == Apply(rs[i], shared, RegEvent(e));
    }
  }

  /** What is still tracked is closed or about to be. */
  ghost predicate Listed(x: Sys) {
    match x.call
    case NotCalled => true
    case Closing(left) => x.reg.closing && x.reg.all.Keys <= left + x.reg.gone
    case Returned => x.reg.closing && x.reg.all.Keys <= x.reg.gone
  }

  lemma {:induction false} RunListed(xs: seq<Sys>, shared: set<FP>, k: nat)
    requires SysRun(xs, shared) && k < |xs|
    ensures Listed(xs[k])
  {
    if k > 0 {
      RunListed(xs, shared, k - 1);
      assert SysNextAt(xs, k - 1, shared);
      var e: SysEvent :| SysEnabled(xs[k - 1], e) && xs[k] == SysApply(xs[k - 1], shared, e);
      NextOnward(xs[k - 1].reg, shared, RegEvent(e));
    }
  }

  /** Once `closeAll` has returned, every session tracked or pooled is closed, then and ever after. */
  lemma CloseAllCloses(xs: seq<Sys>, shared: set<FP>, k: nat, m: nat)
    requires SysRun(xs, shared) && k <= m < |xs| && xs[k].call.Returned?
    ensures xs[m].reg.all.Keys <= xs[m].reg.gone
    ensures forall fp, s :: s in Pool(xs[m].reg, fp) ==> s in xs[m].reg.gone
  {
    RunListed(xs, shared, k);
    RegRun(xs, shared);
    RunOnward(Regs(xs), shared, k, m);
    RunKeeps(Regs(xs), shared, m);
    PoolTracked(xs[m].reg, shared);
  }

  function EarlyReturn(): seq<Sys> {
    var r0 := EMPTY;
    var r1 := Apply(r0, {}, Tracking("a", 0));
    var r2 := Apply(r1, {}, Registering("a", 0));
    var r3 := Apply(r2, {}, ShuttingDown);
    var r4 := Apply(r3, {}, Closes(0));
    [Sys(r0, NotCalled), Sys(r1, NotCalled), Sys(r2, NotCalled),
     Sys(r3, Closing({0})), Sys(r4, Closing({})), Sys(r4, Returned)]
  }

  /** It is not so that nothing is tracked or pooled once `closeAll` has returned: here a session still is, until its
      own goroutine drops it. `ClosedDown` says exactly when. */
  lemma StillTracked()
    ensures var xs := EarlyReturn();
      SysRun(xs, {}) && xs[5].call.Returned? && 0 in xs[5].reg.all && Pool(xs[5].reg, "a") == [0]
  {
    var xs := EarlyReturn();
    var r1, r2 := xs[1].reg, xs[2].reg;
    assert r1.all == map[0 := Tracked("a", false)];
    assert Alive([], {}) == [];
    assert r2.all == map[0 := Tracked("a", true)] && Pool(r2, "a") == [0];
    assert xs[1] == SysApply(xs[0], {}, OfReg(Tracking("a", 0)));
    assert xs[2] == SysApply(xs[1], {}, OfReg(Registering("a", 0)));
    assert xs[3] == SysApply(xs[2], {}, Begin) by { assert r2.all.Keys == {0}; }
    assert xs[4] == SysApply(xs[3], {}, CloseOne(0)) by { assert {0} - {0} == {}; }
    assert xs[5] == SysApply(xs[4], {}, Return);
    forall i: nat | i < 5 ensures SysNextAt(xs, i, {}) {}
  }
}

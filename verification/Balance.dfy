/** Choosing a session: `pick`, `pickReserve` and `nextTurn`, and what they promise over bursts of
    any length. */
module Balance {
  import opened Basics

  /** What a pick looks at in a session. */
  class Session {
    var active: int     // open streams, reservations included
    var coolUntil: int

    constructor ()
      ensures active == 0 && coolUntil == 0
    {
      active, coolUntil := 0, 0;
    }
  }

  datatype Mode = LeastConn | RoundRobin

  /** Not tried yet and, in the first of the two passes, not cooling down. */
  ghost predicate Eligible(c: Session, tried: set<Session>, now: int, second: bool)
    reads c
  {
    c !in tried && (second || c.coolUntil <= now)
  }

  /** How many of the first `n` sessions are eligible. */
  ghost function Count(cands: seq<Session>, n: nat, tried: set<Session>, now: int, second: bool): nat
    requires n <= |cands|
    reads cands
  {
    if n == 0 then 0
    else Count(cands, n - 1, tried, now, second) + if Eligible(cands[n - 1], tried, now, second) then 1 else 0
  }

  lemma {:induction false} CountBounds(cands: seq<Session>, m: nat, n: nat, tried: set<Session>, now: int, second: bool)
    requires m <= n <= |cands|
    ensures Count(cands, m, tried, now, second) <= Count(cands, n, tried, now, second)
    ensures (exists i :: m <= i < n && Eligible(cands[i], tried, now, second)) ==>
      Count(cands, m, tried, now, second) < Count(cands, n, tried, now, second)
  {
    if m < n { CountBounds(cands, m, n - 1, tried, now, second); }
  }

  /** The session a pass settles on: in the rotation, the one with `turn % count` eligible ones before it; by load, one
      with the fewest open streams, the first such from the turn's position on, wrapping around. */
  ghost predicate Chosen(cands: seq<Session>, i: nat, tried: set<Session>, now: int, second: bool, mode: Mode,
                         turn: nat)
    requires i < |cands|
    reads cands
  {
    && Eligible(cands[i], tried, now, second)
    && match mode
       case RoundRobin =>
         var n := Count(cands, |cands|, tried, now, second);
         n > 0 && Count(cands, i, tried, now, second) == turn % n
       case LeastConn =>
         forall k: nat | k < |cands| && Eligible(cands[k], tried, now, second) ::
           && cands[i].active <= cands[k].active
           && (cands[i].active == cands[k].active ==> Ahead(i, turn, |cands|) <= Ahead(k, turn, |cands|))
  }

  /** How far `i` is after the turn's position. */
  function Ahead(i: nat, turn: nat, n: nat): nat
    requires i < n
  {
    var start := turn % n; if i >= start then i - start else i + n - start
  }

  /** One pass of the rotation. */
  method Rotate(cands: seq<Session>, tried: set<Session>, now: int, second: bool, turn: nat) returns (idx: int)
    ensures -1 <= idx < |cands|
    ensures idx >= 0 ==> Chosen(cands, idx, tried, now, second, RoundRobin, turn)
    ensures idx < 0 ==> forall i :: 0 <= i < |cands| ==> !Eligible(cands[i], tried, now, second)
  {
    var count := 0;
    for i := 0 to |cands|
      invariant count == Count(cands, i, tried, now, second)
    {
      if cands[i] !in tried && (second || cands[i].coolUntil <= now) { count := count + 1; }
    }
    CountBounds(cands, 0, |cands|, tried, now, second);
    if count == 0 { return -1; }
    var k := turn % count;
    for i := 0 to |cands|
      invariant k >= 0 && k + Count(cands, i, tried, now, second) == turn % count
    {
      if cands[i] !in tried && (second || cands[i].coolUntil <= now) {
        if k == 0 { return i; }
        k := k - 1;
      }
    }
    assert false;
  }

  /** One pass by load. */
  method Lightest(cands: seq<Session>, tried: set<Session>, now: int, second: bool, turn: nat) returns (idx: int)
    requires cands != []
    ensures -1 <= idx < |cands|
    ensures idx >= 0 ==> Chosen(cands, idx, tried, now, second, LeastConn, turn)
    ensures idx < 0 ==> forall i :: 0 <= i < |cands| ==> !Eligible(cands[i], tried, now, second)
  {
    var n := |cands|;
    var start := turn % n;
    idx := -1;
    for j := 0 to n
      invariant -1 <= idx < n
      invariant idx >= 0 ==> Eligible(cands[idx], tried, now, second) && Ahead(idx, turn, n) < j
      invariant forall k: nat | k < n && Ahead(k, turn, n) < j && Eligible(cands[k], tried, now, second) ::
        && idx >= 0 && cands[idx].active <= cands[k].active
        && (cands[idx].active == cands[k].active ==> Ahead(idx, turn, n) <= Ahead(k, turn, n))
    {
      var i := if start + j < n then start + j else start + j - n;
      assert Ahead(i, turn, n) == j;
      assert forall k: nat | k < n && Ahead(k, turn, n) == j :: k == i;
      var eligible := cands[i] !in tried && (second || cands[i].coolUntil <= now);
      if eligible && (idx < 0 || cands[i].active < cands[idx].active) {
        idx := i;
      }
    }
  }

  /** `pick`: nil exactly when everything has been tried, and a session that is cooling down only when every untried one
      is. */
  method Pick(cands: seq<Session>, tried: set<Session>, mode: Mode, turn: nat, now: int)
    returns (c: Session?, tried': set<Session>)
    ensures c == null <==> forall i :: 0 <= i < |cands| ==> cands[i] in tried
    ensures c == null ==> tried' == tried
    ensures c != null ==> c in cands && c !in tried && tried' == tried + {c}
    ensures c != null ==>
      var second := forall i :: 0 <= i < |cands| ==> !Eligible(cands[i], tried, now, false);
      && (c.coolUntil > now ==> second)
      && exists i :: 0 <= i < |cands| && cands[i] == c && Chosen(cands, i, tried, now, second, mode, turn)
  {
    if cands == [] { return null, tried; }
    var idx;
    if mode == RoundRobin {
      idx := Rotate(cands, tried, now, false, turn);
      if idx < 0 { idx := Rotate(cands, tried, now, true, turn); }
    } else {
      idx := Lightest(cands, tried, now, false, turn);
      if idx < 0 { idx := Lightest(cands, tried, now, true, turn); }
    }
    if idx < 0 { return null, tried; }
    return cands[idx], tried + {cands[idx]};
  }

  /** `pickReserve`: the choice and its reservation are one step. */
  method PickReserve(cands: seq<Session>, tried: set<Session>, mode: Mode, turn: nat, now: int)
    returns (c: Session?, tried': set<Session>)
    modifies cands
    ensures c == null <==> forall i :: 0 <= i < |cands| ==> cands[i] in tried
    ensures c != null ==> c in cands && c !in tried && tried' == tried + {c} && c.active == old(c.active) + 1
    ensures c == null ==> tried' == tried
    ensures forall d <- cands :: (d != c ==> d.active == old(d.active)) && d.coolUntil == old(d.coolUntil)
    ensures c != null && mode == LeastConn ==>
      forall d <- cands | d !in tried && (d.coolUntil <= now || c.coolUntil > now) :: old(c.active) <= old(d.active)
  {
    c, tried' := Pick(cands, tried, mode, turn, now);
    if c != null { c.active := c.active + 1; }
  }

  // ---- Bursts by load ----

  /** No two sessions are more than `d` streams apart. */
  predicate Within(load: seq<int>, d: int) {
    forall i, j :: 0 <= i < |load| && 0 <= j < |load| ==> load[i] - load[j] <= d
  }

  /** One reservation on a session with the fewest streams. */
  ghost predicate Reserves(load: seq<int>, load': seq<int>) {
    exists i :: 0 <= i < |load| && load' == load[i := load[i] + 1] && forall k :: 0 <= k < |load| ==> load[i] <= load[k]
  }

  ghost predicate Burst(r: seq<seq<int>>) {
    r != [] && forall k: nat :: k + 1 < |r| ==> ReservesAt(r, k)
  }

  ghost predicate ReservesAt(r: seq<seq<int>>, k: nat)
    requires k + 1 < |r|
  {
    Reserves(r[k], r[k + 1])
  }

  function Sum(load: seq<int>): int { if load == [] then 0 else Sum(load[..|load| - 1]) + load[|load| - 1] }

  lemma {:induction false} SumUpdate(load: seq<int>, i: nat, v: int)
    requires i < |load|
    ensures Sum(load[i := v]) == Sum(load) + v - load[i]
  {
    var n := |load| - 1;
    if i < n {
      SumUpdate(load[..n], i, v);
      assert load[i := v][..n] == load[..n][i := v];
    } else {
      assert load[i := v][..n] == load[..n];
    }
  }

  lemma ReservesKeeps(was: seq<int>, now: seq<int>, d: int)
    requires Reserves(was, now) && Within(was, d) && d >= 1
    ensures |now| == |was| && Within(now, d)
  {}

  /** However long the burst, the spread stays at most the larger of 1 and what it was. */
  lemma {:induction false} BurstStaysEven(r: seq<seq<int>>, d: int, k: nat)
    requires Burst(r) && k < |r| && Within(r[0], d)
    ensures |r[k]| == |r[0]| && Within(r[k], Max(d, 1))
  {
    if k > 0 {
      BurstStaysEven(r, d, k - 1);
      assert ReservesAt(r, k - 1);
      ReservesKeeps(r[k - 1], r[k], Max(d, 1));
    }
  }

  /** Every request is counted. */
  lemma {:induction false} BurstCounts(r: seq<seq<int>>, k: nat)
    requires Burst(r) && k < |r|
    ensures |r[k]| == |r[0]| && Sum(r[k]) == Sum(r[0]) + k
  {
    if k > 0 {
      BurstCounts(r, k - 1);
      assert ReservesAt(r, k - 1);
      var was := r[k - 1];
      var i :| 0 <= i < |was| && r[k] == was[i := was[i] + 1];
      SumUpdate(was, i, was[i] + 1);
    }
  }

  /** The open streams of the sessions, in order. */
  ghost function Loads(cands: seq<Session>): seq<int>
    reads cands
  {
    seq(|cands|, i requires 0 <= i < |cands| reads cands => cands[i].active)
  }

  lemma BurstGrows(r: seq<seq<int>>, load: seq<int>)
    requires Burst(r) && Reserves(r[|r| - 1], load)
    ensures Burst(r + [load])
  {
    var q := r + [load];
    forall k: nat | k + 1 < |q| ensures ReservesAt(q, k) {
      if k + 1 < |r| { assert ReservesAt(r, k); }
    }
  }

  /** One fresh request over distinct sessions, none cooling down, is a reservation on one of the least loaded. */
  method ReserveOne(cands: seq<Session>, now: int, turn: nat)
    requires cands != [] && NoRepeat(cands) && forall c <- cands :: c.coolUntil <= now
    modifies cands
    ensures Reserves(old(Loads(cands)), Loads(cands)) && forall c <- cands :: c.coolUntil <= now
  {
    assert cands[0] in cands;
    var c, _ := PickReserve(cands, {}, LeastConn, turn, now);
    var i :| 0 <= i < |cands| && cands[i] == c;
    ghost var was := old(Loads(cands));
    assert Loads(cands) == was[i := was[i] + 1];
    assert forall k :: 0 <= k < |was| ==> was[i] <= was[k] by {
      forall k | 0 <= k < |was| ensures was[i] <= was[k] { assert cands[k] in cands; }
    }
  }

  /** `n` fresh requests over distinct sessions, none cooling down: the loads before and after are the ends of a
      burst of that length, so they stay as close as they were, or within one, and every request is counted. */
  method RunBurst(cands: seq<Session>, n: nat, now: int, turn: nat) returns (ghost r: seq<seq<int>>)
    requires cands != [] && NoRepeat(cands) && forall c <- cands :: c.coolUntil <= now
    modifies cands
    ensures |r| == n + 1 && Burst(r) && r[0] == old(Loads(cands)) && r[n] == Loads(cands)
    ensures forall d | d >= 1 && Within(old(Loads(cands)), d) :: Within(Loads(cands), d)
    ensures Sum(Loads(cands)) == Sum(old(Loads(cands))) + n
  {
    r := [Loads(cands)];
    for k := 0 to n
      invariant forall c <- cands :: c.coolUntil <= now
      invariant |r| == k + 1 && Burst(r) && r[0] == old(Loads(cands)) && r[k] == Loads(cands)
    {
      ReserveOne(cands, now, turn + k);
      BurstGrows(r, Loads(cands));
      r := r + [Loads(cands)];
    }
    forall d | d >= 1 && Within(r[0], d) ensures Within(r[n], d) { BurstStaysEven(r, d, n); }
    BurstCounts(r, n);
  }

  // ---- The rotation ----

  const TURNS: nat := 0x1_0000_0000_0000_0000  // the turn counter is an unsigned 64-bit integer

  /** The session of the `n`-th turn from `t` on, among `k`. */
  function SessionOf(t: nat, n: nat, k: nat): nat
    requires k > 0
  {
    ((t + n) % TURNS) % k
  }

  /** How often session `i` comes up in the `n` turns from `t` on. */
  function Hits(t: nat, n: nat, k: nat, i: nat): nat
    requires k > 0
  {
    if n == 0 then 0 else Hits(t, n - 1, k, i) + if SessionOf(t, n - 1, k) == i then 1 else 0
  }

  predicate Fair(t: nat, n: nat, k: nat, i: nat)
    requires k > 0
  {
    n / k <= Hits(t, n, k, i) <= (n + k - 1) / k
  }

  lemma {:induction false} AllCounted(cands: seq<Session>, n: nat, now: int)
    requires n <= |cands| && forall c <- cands :: c.coolUntil <= now
    ensures Count(cands, n, {}, now, false) == n
  {
    if n > 0 { AllCounted(cands, n - 1, now); }
  }

  /** With nothing tried or cooling down, the rotation of `Rotate` is the one counted here. */
  lemma RotationIsByTurn(cands: seq<Session>, i: nat, now: int, turn: nat)
    requires i < |cands| && forall c <- cands :: c.coolUntil <= now
    requires Chosen(cands, i, {}, now, false, RoundRobin, turn) && turn < TURNS
    ensures i == SessionOf(turn, 0, |cands|)
  {
    AllCounted(cands, |cands|, now);
    AllCounted(cands, i, now);
    DivUnique(turn, TURNS, 0, turn);
  }

  /** With equal loads, least_conn goes round by the turn as the rotation does. */
  lemma TiesByTurn(cands: seq<Session>, i: nat, now: int, turn: nat)
    requires i < |cands| && (forall c <- cands :: c.coolUntil <= now)
    requires forall c, d :: c in cands && d in cands ==> c.active == d.active
    requires Chosen(cands, i, {}, now, false, LeastConn, turn) && turn < TURNS
    ensures i == SessionOf(turn, 0, |cands|)
  {
    var start := turn % |cands|;
    assert Eligible(cands[start], {}, now, false) && cands[i] in cands;
    assert Ahead(start, turn, |cands|) == 0;
    DivUnique(turn, TURNS, 0, turn);
  }

  lemma AtLeastOnce(a: nat, k: nat)
    requires a >= 1
    ensures a * k >= k
  {
    assert a * k == (a - 1) * k + k;
  }

  lemma DivUnique(x: nat, k: nat, q: nat, r: nat)
    requires k > 0 && x == q * k + r && r < k
    ensures x / k == q && x % k == r
  {
    var q', r' := x / k, x % k;
    assert q' * k + r' == q * k + r;
    if q > q' { AtLeastOnce(q - q', k); }
    if q < q' { AtLeastOnce(q' - q, k); }
  }

  /** Counting on by one. */
  lemma DivNext(x: nat, k: nat)
    requires k > 0
    ensures x % k + 1 == k ==> (x + 1) % k == 0 && (x + 1) / k == x / k + 1
    ensures x % k + 1 < k ==> (x + 1) % k == x % k + 1 && (x + 1) / k == x / k
  {
    var q, r := x / k, x % k;
    assert x == q * k + r;
    if r + 1 == k {
      assert (q + 1) * k == q * k + k;
      DivUnique(x + 1, k, q + 1, 0);
    } else {
      DivUnique(x + 1, k, q, r + 1);
    }
  }

  lemma CeilDiv(n: nat, k: nat)
    requires k > 0
    ensures (n + k - 1) / k == n / k + if n % k == 0 then 0 else 1
  {
    var q, r := n / k, n % k;
    assert n == q * k + r;
    if r == 0 {
      DivUnique(n + k - 1, k, q, k - 1);
    } else {
      assert (q + 1) * k == q * k + k;
      DivUnique(n + k - 1, k, q + 1, r - 1);
    }
  }

  function Succ(p: nat, k: nat): nat { if p + 1 == k then 0 else p + 1 }

  /** The next `n` turns go round in order. */
  ghost predicate Steady(t: nat, n: nat, k: nat)
    requires k > 0
  {
    forall m: nat {:trigger SessionOf(t, m, k)} :: m + 1 < n ==> SessionOf(t, m + 1, k) == Succ(SessionOf(t, m, k), k)
  }

  /** How far `i` comes after `a` in the round. */
  function Dist(i: nat, a: nat, k: nat): nat
    requires i < k && a < k
  {
    if i >= a then i - a else i + k - a
  }

  lemma NextInRound(t: nat, n: nat, k: nat, m: nat)
    requires k > 0 && Steady(t, n, k) && m + 1 < n
    ensures SessionOf(t, m + 1, k) == Succ(SessionOf(t, m, k), k)
  {}

  lemma {:induction false} RoundPosition(t: nat, n: nat, k: nat, m: nat)
    requires k > 0 && Steady(t, n, k) && m < n
    ensures Dist(SessionOf(t, m, k), SessionOf(t, 0, k), k) == m % k
  {
    if m == 0 {
      DivUnique(0, k, 0, 0);
    } else {
      RoundPosition(t, n, k, m - 1);
      NextInRound(t, n, k, m - 1);
      DivNext(m - 1, k);
    }
  }

  /** In a steady stretch each session comes up once a round, and once more if the last, partial round reaches it. */
  lemma {:induction false} HitsInRounds(t: nat, n: nat, k: nat, i: nat, m: nat)
    requires k > 0 && i < k && Steady(t, n, k) && m <= n
    ensures Hits(t, m, k, i) == m / k + if Dist(i, SessionOf(t, 0, k), k) < m % k then 1 else 0
  {
    if m == 0 {
      DivUnique(0, k, 0, 0);
    } else {
      HitsInRounds(t, n, k, i, m - 1);
      RoundPosition(t, n, k, m - 1);
      DivNext(m - 1, k);
    }
  }

  lemma SteadyIsFair(t: nat, n: nat, k: nat, i: nat)
    requires k > 0 && i < k && Steady(t, n, k)
    ensures Fair(t, n, k, i)
  {
    HitsInRounds(t, n, k, i, n);
    CeilDiv(n, k);
  }

  lemma NextSession(t: nat, m: nat, k: nat)
    requires k > 0 && ((t + m) % TURNS + 1 < TURNS || TURNS % k == 0)
    ensures SessionOf(t, m + 1, k) == Succ(SessionOf(t, m, k), k)
  {
    var y := (t + m) % TURNS;
    DivNext(t + m, TURNS);
    DivNext(y, k);
  }

  /** Any `n` consecutive turns give each of `k` sessions `n / k` requests, rounded down or up, as long as the
      counter does not wrap around in between. */
  lemma FairWithinTheCounter(t: nat, n: nat, k: nat, i: nat)
    requires k > 0 && i < k && t % TURNS + n <= TURNS
    ensures Fair(t, n, k, i)
  {
    forall m: nat | m + 1 < n ensures SessionOf(t, m + 1, k) == Succ(SessionOf(t, m, k), k) {
      DivUnique(t + m, TURNS, t / TURNS, t % TURNS + m);
      NextSession(t, m, k);
    }
    SteadyIsFair(t, n, k, i);
  }

  lemma {:induction false} HitsGrow(t: nat, n: nat, k: nat, i: nat)
    requires k > 0 && n > 0 && SessionOf(t, 0, k) == i
    ensures Hits(t, n, k, i) >= 1
  {
    if n > 1 { HitsGrow(t, n - 1, k, i); } else { assert Hits(t, 0, k, i) == 0; }
  }

  /** At the wrap-around the first session comes up twice within one round, unless the sessions divide the counter's
      range. */
  lemma WrapIsUnfair(k: nat)
    requires k > 0 && TURNS % k != 0
    ensures var m := TURNS % k; m <= TURNS && !Fair(TURNS - m, m + 1, k, 0)
  {
    var q, m := TURNS / k, TURNS % k;
    assert TURNS == q * k + m;
    assert q * k >= 0;
    var t := TURNS - m;
    DivUnique(t, k, q, 0);
    DivUnique(t, TURNS, 0, t);
    assert SessionOf(t, 0, k) == 0;
    assert SessionOf(t, m, k) == 0 by {
      DivUnique(TURNS, TURNS, 1, 0);
      DivUnique(0, k, 0, 0);
    }
    HitsGrow(t, m, k, 0);
    CeilDiv(m + 1, k);
    if m + 1 < k { DivUnique(m + 1, k, 0, m + 1); } else { DivUnique(m + 1, k, 1, 0); }
  }

  /** The rotation is fair in every stretch, wrap-around included, exactly when the number of sessions divides 2^64. */
  lemma RotationFairness(k: nat)
    requires k > 0
    ensures (forall t: nat, n: nat, i: nat | i < k :: Fair(t, n, k, i)) <==> TURNS % k == 0
  {
    if TURNS % k == 0 {
      forall t: nat, n: nat, i: nat | i < k ensures Fair(t, n, k, i) {
        forall m: nat | m + 1 < n ensures SessionOf(t, m + 1, k) == Succ(SessionOf(t, m, k), k) {
          NextSession(t, m, k);
        }
        SteadyIsFair(t, n, k, i);
      }
    } else {
      WrapIsUnfair(k);
    }
  }
}

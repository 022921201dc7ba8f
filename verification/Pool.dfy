/** The index of idle HTTP/3 tunnel streams. Each method is one section under the pool's lock; `Streams` interleaves
    them with everything else. */
module Pool {
  import opened Options
  import opened Basics

  type Host = string

  const MAX_KEPT_PER_CONN := 32

  /** An idle stream. Its tunnel stream's agent, route and host never change. */
  class IdleStream {
    const conn: ConnStreams
    const host: Host
    const agent: nat
    const route: nat
    var taken: bool

    constructor (conn: ConnStreams, host: Host, agent: nat, route: nat)
      ensures this.conn == conn && this.host == host && this.agent == agent && this.route == route && !taken
    {
      this.conn, this.host, this.agent, this.route, taken := conn, host, agent, route, false;
    }
  }

  /** One HTTP/3 connection's idle streams by host, the most recently used last. */
  class ConnStreams {
    var idle: map<Host, seq<IdleStream>>
    var n: int
    var closed: bool

    constructor ()
      ensures idle == map[] && n == 0 && !closed
    {
      idle, n, closed := map[], 0, false;
    }

    function Now(): Streams
      reads this
    {
      Streams(idle, n, closed)
    }

    method Append(s: IdleStream)
      modifies this
      ensures Now() == Added(old(Now()), s)
    {
      idle, n := idle[s.host := At(idle, s.host) + [s]], n + 1;
    }

    /** The scan of `removeLocked`. */
    method Unlist(s: IdleStream, ghost rest: set<IdleStream>)
      requires NoRepeat(At(idle, s.host)) && s !in rest && forall x <- At(idle, s.host) :: x != s ==> x in rest
      modifies this
      ensures Now() == Removed(old(Now()), s, rest)
    {
      var list := Without(At(idle, s.host), s, rest);
      if list == [] { idle := idle - {s.host}; } else { idle := idle[s.host := list]; }
      n := n - 1;
    }
  }

  type Lists = map<Host, seq<IdleStream>>
  datatype Streams = Streams(idle: Lists, n: int, closed: bool)

  function At(idle: Lists, h: Host): seq<IdleStream> { if h in idle then idle[h] else [] }

  /** Which streams a removal is after. */
  datatype Which = OfConn(cs: ConnStreams) | OfAgent(agent: nat) | Every
  {
    predicate Is(s: IdleStream) {
      match this
      case OfConn(cs) => s.conn == cs
      case OfAgent(a) => s.agent == a
      case Every => true
    }
  }

  function Of(all: set<IdleStream>, cs: ConnStreams): set<IdleStream> {
    set s | s in all && s.conn == cs
  }

  lemma OfChanges(all: set<IdleStream>, s: IdleStream, cs: ConnStreams)
    requires s !in all
    ensures |Of(all + {s}, cs)| == |Of(all, cs)| + if s.conn == cs then 1 else 0
  {
    assert Of(all + {s}, cs) == Of(all, cs) + if s.conn == cs then {s} else {};
  }

  // ---- Lists ----

  /** The members of a list that are in a set, in order. */
  function Keep(s: seq<IdleStream>, keep: set<IdleStream>): (r: seq<IdleStream>)
    ensures (forall x <- r :: x in s && x in keep) && (forall x <- s :: x in keep ==> x in r)
    ensures |r| <= |s|
  {
    if s == [] then [] else (if s[0] in keep then [s[0]] else []) + Keep(s[1..], keep)
  }

  lemma {:induction false} KeepTail(s: seq<IdleStream>, i: nat, keep: set<IdleStream>)
    requires i < |s| && s[i] !in keep
    requires forall j :: 0 <= j < |s| && j != i ==> s[j] in keep
    ensures Keep(s, keep) == s[..i] + s[i + 1..]
  {
    if i == 0 {
      KeepAll(s[1..], keep);
    } else {
      KeepTail(s[1..], i - 1, keep);
      CutAfterFirst(s, i);
    }
  }

  lemma CutAfterFirst(s: seq<IdleStream>, i: nat)
    requires 0 < i < |s|
    ensures [s[0]] + (s[1..][..i - 1] + s[1..][i..]) == s[..i] + s[i + 1..]
  {}

  lemma {:induction false} KeepAll(s: seq<IdleStream>, keep: set<IdleStream>)
    requires forall x <- s :: x in keep
    ensures Keep(s, keep) == s
  {
    if s != [] { KeepAll(s[1..], keep); }
  }

  lemma {:induction false} KeepTwice(s: seq<IdleStream>, a: set<IdleStream>, b: set<IdleStream>)
    requires b <= a
    ensures Keep(Keep(s, a), b) == Keep(s, b)
  {
    if s != [] {
      KeepTwice(s[1..], a, b);
      var k := Keep(s[1..], a);
      if s[0] in a { assert ([s[0]] + k)[1..] == k; } else { assert [] + k == k; }
    }
  }

  lemma {:induction false} KeepNoRepeat(s: seq<IdleStream>, keep: set<IdleStream>)
    requires NoRepeat(s)
    ensures NoRepeat(Keep(s, keep))
  {
    if s != [] {
      KeepNoRepeat(s[1..], keep);
      assert s[0] !in s[1..];
    }
  }

  /** The list without one stream, as `removeLocked` scans it. */
  method Without(s: seq<IdleStream>, x: IdleStream, ghost keep: set<IdleStream>) returns (r: seq<IdleStream>)
    requires NoRepeat(s) && x !in keep && forall y <- s :: y != x ==> y in keep
    ensures r == Keep(s, keep)
  {
    for i := 0 to |s|
      invariant forall j :: 0 <= j < i ==> s[j] != x
    {
      if s[i] == x {
        KeepTail(s, i, keep);
        return s[..i] + s[i + 1..];
      }
    }
    KeepAll(s, keep);
    return s;
  }

  // ---- One connection's lists ----

  /** The streams of a connection's lists are its members of `all`, each once, in the list of its host; no list is
      empty. */
  ghost predicate Listed(idle: Lists, all: set<IdleStream>, cs: ConnStreams) {
    && (forall h <- idle :: idle[h] != [] && NoRepeat(idle[h]))
    && (forall h <- idle :: forall s <- idle[h] :: s in all && s.conn == cs && s.host == h)
    && (forall s <- all :: s.conn == cs ==> s in At(idle, s.host))
  }

  /** `n` is their total, at most 32, and a closed connection has none. */
  ghost predicate Indexed(v: Streams, all: set<IdleStream>, cs: ConnStreams) {
    Listed(v.idle, all, cs) && v.n == |Of(all, cs)| <= MAX_KEPT_PER_CONN && (v.closed ==> Of(all, cs) == {})
  }

  function Added(v: Streams, s: IdleStream): Streams {
    v.(idle := v.idle[s.host := At(v.idle, s.host) + [s]], n := v.n + 1)
  }

  function Removed(v: Streams, s: IdleStream, rest: set<IdleStream>): Streams {
    var list := Keep(At(v.idle, s.host), rest);
    v.(idle := if list == [] then v.idle - {s.host} else v.idle[s.host := list], n := v.n - 1)
  }

  /** Every list keeps the order of what remains. */
  ghost predicate InOrder(was: Lists, now: Lists, rest: set<IdleStream>) {
    forall h :: At(now, h) == Keep(At(was, h), rest)
  }

  lemma AddedIndexed(v: Streams, all: set<IdleStream>, s: IdleStream)
    requires Indexed(v, all, s.conn) && s !in all && !v.closed && v.n < MAX_KEPT_PER_CONN
    ensures Indexed(Added(v, s), all + {s}, s.conn)
  {
    OfChanges(all, s, s.conn);
    assert NoRepeat(At(v.idle, s.host) + [s]);
  }

  lemma RemovedInOrder(v: Streams, all: set<IdleStream>, s: IdleStream)
    requires Listed(v.idle, all, s.conn) && s in all
    ensures InOrder(v.idle, Removed(v, s, all - {s}).idle, all - {s})
  {
    var rest := all - {s};
    var now := Removed(v, s, rest).idle;
    forall h ensures At(now, h) == Keep(At(v.idle, h), rest) {
      if h != s.host {
        assert At(now, h) == At(v.idle, h);
        KeepAll(At(v.idle, h), rest);
      }
    }
  }

  lemma RemovedListed(v: Streams, all: set<IdleStream>, s: IdleStream)
    requires Listed(v.idle, all, s.conn) && s in all
    ensures Listed(Removed(v, s, all - {s}).idle, all - {s}, s.conn)
  {
    var rest := all - {s};
    KeepNoRepeat(At(v.idle, s.host), rest);
    RemovedInOrder(v, all, s);
  }

  lemma RemovedIndexed(v: Streams, all: set<IdleStream>, s: IdleStream)
    requires Indexed(v, all, s.conn) && s in all
    ensures Indexed(Removed(v, s, all - {s}), all - {s}, s.conn)
  {
    var rest := all - {s};
    assert rest + {s} == all;
    OfChanges(rest, s, s.conn);
    RemovedListed(v, all, s);
  }

  lemma KeepBeforeLast(s: seq<IdleStream>, x: IdleStream, keep: set<IdleStream>)
    requires x !in keep && forall y <- s :: y in keep
    ensures Keep(s + [x], keep) == s
  {
    var t := s + [x];
    KeepTail(t, |s|, keep);
    assert t[..|s|] == s && t[|s| + 1..] == [];
  }

  /** The last stream put is the one the next take finds, and once it is removed the lists are what they were. */
  lemma LastInFirstOut(v: Streams, all: set<IdleStream>, s: IdleStream)
    requires Indexed(v, all, s.conn) && s !in all
    ensures var list := At(Added(v, s).idle, s.host); list != [] && list[|list| - 1] == s
    ensures Removed(Added(v, s), s, all) == v
  {
    var was := At(v.idle, s.host);
    assert forall y <- was :: y in all;
    KeepBeforeLast(was, s, all);
    if s.host in v.idle {
      assert v.idle[s.host := was + [s]][s.host := was] == v.idle;
    } else {
      assert v.idle[s.host := was + [s]] - {s.host} == v.idle;
    }
  }

  /** Another connection's streams do not matter. */
  lemma OthersIndexed(v: Streams, all: set<IdleStream>, all': set<IdleStream>, cs: ConnStreams)
    requires Indexed(v, all, cs) && Of(all, cs) == Of(all', cs)
    ensures Indexed(v, all', cs) && InOrder(v.idle, v.idle, all')
  {
    forall s | s in all || s in all' ensures s.conn == cs ==> (s in all <==> s in all') {
      assert s in Of(all, cs) <==> s in Of(all', cs);
    }
    forall h ensures At(v.idle, h) == Keep(At(v.idle, h), all') { KeepAll(At(v.idle, h), all'); }
  }

  // ---- The whole index ----

  ghost predicate AllIndexed(now: map<ConnStreams, Streams>, all: set<IdleStream>) {
    forall cs <- now :: Indexed(now[cs], all, cs)
  }

  ghost predicate AllInOrder(was: map<ConnStreams, Streams>, now: map<ConnStreams, Streams>, rest: set<IdleStream>) {
    && now.Keys == was.Keys
    && forall cs <- now :: InOrder(was[cs].idle, now[cs].idle, rest) && now[cs].closed == was[cs].closed
  }

  lemma AllAdded(now: map<ConnStreams, Streams>, all: set<IdleStream>, s: IdleStream)
    requires AllIndexed(now, all) && s.conn in now && s !in all
    requires !now[s.conn].closed && now[s.conn].n < MAX_KEPT_PER_CONN
    ensures AllIndexed(now[s.conn := Added(now[s.conn], s)], all + {s})
  {
    AddedIndexed(now[s.conn], all, s);
    forall c <- now | c != s.conn ensures Indexed(now[c], all + {s}, c) {
      assert Of(all, c) == Of(all + {s}, c);
      OthersIndexed(now[c], all, all + {s}, c);
    }
  }

  lemma AllRemoved(now: map<ConnStreams, Streams>, all: set<IdleStream>, s: IdleStream)
    requires AllIndexed(now, all) && s in all && s.conn in now
    ensures var now' := now[s.conn := Removed(now[s.conn], s, all - {s})];
      AllIndexed(now', all - {s}) && AllInOrder(now, now', all - {s})
  {
    RemovedIndexed(now[s.conn], all, s);
    RemovedInOrder(now[s.conn], all, s);
    forall c <- now | c != s.conn
      ensures Indexed(now[c], all - {s}, c) && InOrder(now[c].idle, now[c].idle, all - {s})
    {
      OthersRemoved(now[c], all, s, c);
    }
  }

  lemma ListKnown(now: map<ConnStreams, Streams>, all: set<IdleStream>, s: IdleStream)
    requires AllIndexed(now, all) && s.conn in now
    ensures NoRepeat(At(now[s.conn].idle, s.host))
    ensures forall x <- At(now[s.conn].idle, s.host) :: x != s ==> x in all - {s}
  {
    assert Indexed(now[s.conn], all, s.conn);
  }

  lemma OthersRemoved(v: Streams, all: set<IdleStream>, s: IdleStream, c: ConnStreams)
    requires Indexed(v, all, c) && c != s.conn
    ensures Indexed(v, all - {s}, c) && InOrder(v.idle, v.idle, all - {s})
  {
    assert Of(all, c) == Of(all - {s}, c);
    OthersIndexed(v, all, all - {s}, c);
  }

  lemma InOrderTwice(a: map<ConnStreams, Streams>, b: map<ConnStreams, Streams>, c: map<ConnStreams, Streams>,
                     r: set<IdleStream>, r': set<IdleStream>)
    requires AllInOrder(a, b, r) && AllInOrder(b, c, r') && r' <= r
    ensures AllInOrder(a, c, r')
  {
    forall cs <- a, h ensures At(c[cs].idle, h) == Keep(At(a[cs].idle, h), r') { KeepTwice(At(a[cs].idle, h), r, r'); }
  }

  lemma NoneRemoved(now: map<ConnStreams, Streams>, all: set<IdleStream>)
    requires AllIndexed(now, all)
    ensures AllInOrder(now, now, all)
  {
    forall c <- now ensures InOrder(now[c].idle, now[c].idle, all) { OthersIndexed(now[c], all, all, c); }
  }

  ghost predicate SameLists(was: map<ConnStreams, Streams>, now: map<ConnStreams, Streams>) {
    now.Keys == was.Keys && forall c <- now, h :: At(now[c].idle, h) == At(was[c].idle, h)
  }

  lemma BackAgain(was: map<ConnStreams, Streams>, now: map<ConnStreams, Streams>, all: set<IdleStream>, s: IdleStream)
    requires AllIndexed(was, all) && s.conn in was && s !in all
    requires AllInOrder(was[s.conn := Added(was[s.conn], s)], now, all)
    ensures SameLists(was, now)
  {
    var mid := was[s.conn := Added(was[s.conn], s)];
    forall c <- now, h ensures At(now[c].idle, h) == At(was[c].idle, h) {
      assert Indexed(was[c], all, c) && InOrder(mid[c].idle, now[c].idle, all);
      if c == s.conn && h == s.host {
        KeepBeforeLast(At(was[c].idle, h), s, all);
      } else {
        assert At(mid[c].idle, h) == At(was[c].idle, h);
        KeepAll(At(was[c].idle, h), all);
      }
    }
  }

  class H3Pool {
    var all: set<IdleStream>
    var closed: bool
    ghost var conns: set<ConnStreams>  // every connection there has been
    ghost var ever: set<IdleStream>    // every stream ever put

    ghost function Now(): map<ConnStreams, Streams>
      reads this, conns
    {
      map cs | cs in conns :: cs.Now()
    }

    /** `all` is the disjoint union of the connections' lists, `n` their total and at most 32, `taken` is false
        exactly for members, and a closed connection or pool is empty. */
    ghost predicate Valid()
      reads this, conns, ever
    {
      && all <= ever
      && (forall s <- ever :: s.conn in conns && (s.taken <==> s !in all))
      && AllIndexed(Now(), all)
      && (closed ==> all == {})
    }

    constructor ()
      ensures Valid() && all == {} && !closed && conns == {} && ever == {}
    {
      all, closed, conns, ever := {}, false, {}, {};
    }

    method NewConn() returns (cs: ConnStreams)
      requires Valid()
      modifies this
      ensures Valid() && fresh(cs) && conns == old(conns) + {cs}
      ensures all == old(all) && ever == old(ever) && closed == old(closed)
      ensures Now() == old(Now())[cs := Streams(map[], 0, false)]
    {
      cs := new ConnStreams();
      assert forall s <- ever :: s.conn != cs;
      assert Of(all, cs) == {};
      conns := conns + {cs};
      assert Now() == old(Now())[cs := cs.Now()];
    }

    method Insert(s: IdleStream)
      requires s.conn in conns && !s.taken
      modifies this, s.conn
      ensures conns == old(conns) && closed == old(closed) && all == old(all) + {s} && ever == old(ever) + {s}
      ensures Now() == old(Now())[s.conn := Added(old(s.conn.Now()), s)]
    {
      s.conn.Append(s);
      all, ever := all + {s}, ever + {s};
      assert Now() == old(Now())[s.conn := Added(old(s.conn.Now()), s)];
    }

    /** `put`: the stream is kept, as the most recently used of its host, unless the pool or the connection is
        closed, the connection keeps its share, someone waits for a slot of the route or the agent is retired. */
    method Put(cs: ConnStreams, host: Host, agent: nat, route: nat, waiters: nat, retired: bool)
      returns (kept: Option<IdleStream>)
      requires Valid() && cs in conns
      modifies this, cs
      ensures Valid() && conns == old(conns) && closed == old(closed)
      ensures kept.None? <==> closed || old(cs.closed) || old(cs.n) >= MAX_KEPT_PER_CONN || waiters > 0 || retired
      ensures kept.None? ==> all == old(all) && ever == old(ever) && Now() == old(Now())
      ensures kept.Some? ==>
        var s := kept.value;
        && fresh(s) && s.conn == cs && s.host == host && s.agent == agent && s.route == route
        && all == old(all) + {s} && ever == old(ever) + {s} && Now() == old(Now())[cs := Added(old(cs.Now()), s)]
    {
      if closed || cs.closed || cs.n >= MAX_KEPT_PER_CONN || waiters > 0 || retired { return None; }
      var s := new IdleStream(cs, host, agent, route);
      assert s !in all && Now() == old(Now());
      AllAdded(Now(), all, s);
      Insert(s);
      return Some(s);
    }

    /** `removeLocked` on a member. */
    method RemoveMember(s: IdleStream)
      requires s.conn in conns && NoRepeat(At(s.conn.idle, s.host))
      requires forall x <- At(s.conn.idle, s.host) :: x != s ==> x in all - {s}
      modifies this, s, s.conn
      ensures conns == old(conns) && ever == old(ever) && closed == old(closed) && s.taken && all == old(all) - {s}
      ensures Now() == old(Now())[s.conn := Removed(old(s.conn.Now()), s, all)]
    {
      s.conn.Unlist(s, all - {s});
      s.taken := true;
      all := all - {s};
      assert Now() == old(Now())[s.conn := Removed(old(s.conn.Now()), s, all)];
    }

    /** `removeLocked`. */
    method Remove(s: IdleStream)
      requires Valid() && s in ever
      modifies this, s, s.conn
      ensures Valid() && conns == old(conns) && ever == old(ever) && closed == old(closed)
      ensures all == old(all) - {s}
      ensures AllInOrder(old(Now()), Now(), all)
    {
      if s.taken {
        assert all == all - {s};
        NoneRemoved(Now(), all);
        return;
      }
      AllRemoved(Now(), all, s);
      ListKnown(Now(), all, s);
      RemoveMember(s);
    }

    /** `removeWhereLocked`. */
    method RemoveWhere(which: Which)
      requires Valid()
      modifies this, conns, all
      ensures Valid() && conns == old(conns) && ever == old(ever) && closed == old(closed)
      ensures all == set s | s in old(all) && !which.Is(s)
      ensures AllInOrder(old(Now()), Now(), all)
    {
      var todo := all;
      NoneRemoved(Now(), all);
      while todo != {}
        invariant Valid() && conns == old(conns) && ever == old(ever) && closed == old(closed) && todo <= all
        invariant all == set s | s in old(all) && (s in todo || !which.Is(s))
        invariant AllInOrder(old(Now()), Now(), all)
        decreases |todo|
      {
        var s :| s in todo;
        todo := todo - {s};
        if which.Is(s) {
          ghost var was, before := Now(), all;
          Remove(s);
          InOrderTwice(old(Now()), was, Now(), before, all);
        }
      }
    }

    /** `closeConn`: the connection's streams go and no more are kept for it. */
    method CloseConn(cs: ConnStreams)
      requires Valid() && cs in conns
      modifies this, conns, all
      ensures Valid() && conns == old(conns) && ever == old(ever) && closed == old(closed)
      ensures all == (set s | s in old(all) && s.conn != cs) && cs.closed
      ensures forall c <- conns :: c != cs ==> c.closed == old(c.closed)
    {
      RemoveWhere(OfConn(cs));
      assert forall c <- conns :: c.closed == old(c.closed) by {
        forall c <- conns ensures c.closed == old(c.closed) { assert Now()[c].closed == old(Now())[c].closed; }
      }
      MarkClosed(cs);
    }

    method MarkClosed(cs: ConnStreams)
      requires Valid() && cs in conns && Of(all, cs) == {}
      modifies cs
      ensures Valid() && cs.closed && cs.idle == old(cs.idle) && cs.n == old(cs.n)
    {
      ghost var was := Now();
      cs.closed := true;
      assert Indexed(was[cs].(closed := true), all, cs);
      assert Now() == was[cs := was[cs].(closed := true)];
    }

    /** `closeAgent`: the agent's streams go. */
    method CloseAgent(agent: nat)
      requires Valid()
      modifies this, conns, all
      ensures Valid() && conns == old(conns) && ever == old(ever) && closed == old(closed)
      ensures all == set s | s in old(all) && s.agent != agent
      ensures AllInOrder(old(Now()), Now(), all)
    {
      RemoveWhere(OfAgent(agent));
    }

    /** `closeAll`: every stream goes and no more are kept. */
    method CloseAll()
      requires Valid()
      modifies this, conns, all
      ensures Valid() && conns == old(conns) && ever == old(ever) && closed && all == {}
    {
      RemoveWhere(Every);
      closed := true;
    }

    /** `evictRoute`: one stream of the route goes, if there is one. */
    method EvictRoute(route: nat) returns (victim: Option<IdleStream>)
      requires Valid()
      modifies this, conns, all
      ensures Valid() && conns == old(conns) && ever == old(ever) && closed == old(closed)
      ensures victim.Some? <==> exists s <- old(all) :: s.route == route
      ensures victim.Some? ==> victim.value in old(all) && victim.value.route == route && victim.value.taken
      ensures all == if victim.Some? then old(all) - {victim.value} else old(all)
      ensures AllInOrder(old(Now()), Now(), all)
    {
      NoneRemoved(Now(), all);
      var onRoute := set s | s in all && s.route == route;
      if onRoute == {} {
        assert forall s <- all :: s.route == route ==> s in onRoute;
        return None;
      }
      var s :| s in onRoute;
      Remove(s);
      return Some(s);
    }

    /** The section of `take` under the lock: the most recently used stream of the host goes. */
    method TakeLast(cs: ConnStreams, host: Host) returns (is_: Option<IdleStream>)
      requires Valid() && cs in conns
      modifies this, conns, all
      ensures Valid() && conns == old(conns) && ever == old(ever) && closed == old(closed)
      ensures is_.None? <==> forall s <- old(all) :: !(s.conn == cs && s.host == host)
      ensures is_.None? ==> old(At(cs.idle, host)) == At(cs.idle, host) == []
      ensures is_.Some? ==> var s := is_.value; s in old(all) && s.conn == cs && s.host == host && s.taken
      ensures all == (if is_.Some? then old(all) - {is_.value} else old(all)) && AllInOrder(old(Now()), Now(), all)
      ensures is_.Some? ==> At(cs.idle, host) + [is_.value] == old(At(cs.idle, host))
    {
      NoneRemoved(Now(), all);
      assert Indexed(Now()[cs], all, cs);
      var list := At(cs.idle, host);
      if list == [] { return None; }
      var s := list[|list| - 1];
      assert s in list;
      KeepLast(list, all);
      Remove(s);
      return Some(s);
    }

    /** A stream put and kept is the next one taken for its connection and host, and afterwards every list of every
        connection is what it was. */
    method PutThenTake(cs: ConnStreams, host: Host, agent: nat, route: nat) returns (put: Option<IdleStream>,
                                                                                   taken: Option<IdleStream>)
      requires Valid() && cs in conns
      modifies this, conns, all
      ensures Valid() && conns == old(conns) && closed == old(closed) && all == old(all)
      ensures put.Some? <==> !closed && !old(cs.closed) && old(cs.n) < 32
      ensures put.Some? ==> taken == put && fresh(put.value) && put.value.agent == agent && put.value.route == route
      ensures put.Some? ==> SameLists(old(Now()), Now())
    {
      ghost var was, before := Now(), all;
      put := Put(cs, host, agent, route, 0, false);
      if put.None? { return put, None; }
      assert cs.Now() == Now()[cs];
      taken := TakeBack(cs, put.value);
      assert all == before;
      BackAgain(was, Now(), before, put.value);
    }

    method TakeBack(cs: ConnStreams, s: IdleStream) returns (taken: Option<IdleStream>)
      requires Valid() && cs in conns && s.conn == cs
      requires var list := At(cs.idle, s.host); list != [] && list[|list| - 1] == s
      modifies this, conns, all
      ensures Valid() && conns == old(conns) && closed == old(closed) && all == old(all) - {s}
      ensures taken == Some(s) && AllInOrder(old(Now()), Now(), all)
    {
      ghost var list := At(cs.idle, s.host);
      taken := TakeLast(cs, s.host);
      assert taken.Some? && list == At(cs.idle, s.host) + [taken.value];
    }

    /** `take`, run alone: the most recently used stream of the host that is still good, and those used after it go.
        `good` are those whose watcher was ended with nothing read, on the request's route, their session open and not
        retired. */
    method Take(cs: ConnStreams, host: Host, good: set<IdleStream>)
      returns (got: Option<IdleStream>, dropped: seq<IdleStream>)
      requires Valid() && cs in conns
      modifies this, conns, all
      ensures Valid() && conns == old(conns) && ever == old(ever) && closed == old(closed)
      ensures forall s <- dropped :: s !in good
      ensures old(At(cs.idle, host)) == At(cs.idle, host) + (if got.Some? then [got.value] else []) + dropped
      ensures if got.Some? then got.value in good else At(cs.idle, host) == []
      ensures all == old(all) - Members(dropped) - if got.Some? then {got.value} else {}
    {
      dropped := [];
      while true
        invariant Valid() && conns == old(conns) && ever == old(ever) && closed == old(closed)
        invariant forall s <- dropped :: s !in good
        invariant old(At(cs.idle, host)) == At(cs.idle, host) + dropped
        invariant all == old(all) - Members(dropped)
        decreases |At(cs.idle, host)|
      {
        got := TakeLast(cs, host);
        if got.None? { return; }
        if got.value in good { return; }
        dropped := [got.value] + dropped;
      }
    }
  }

  // ---- Totals ----

  ghost function Total(idle: Lists): nat {
    if idle == map[] then 0 else var h :| h in idle; |idle[h]| + Total(idle - {h})
  }

  /** `n` is the total of the lists: the count of members is. */
  lemma {:induction false} TotalIsCount(idle: Lists, all: set<IdleStream>, cs: ConnStreams)
    requires Listed(idle, all, cs)
    ensures Total(idle) == |Of(all, cs)|
    decreases |idle|
  {
    if idle == map[] {
      assert Of(all, cs) == {};
      return;
    }
    var h :| h in idle && Total(idle) == |idle[h]| + Total(idle - {h});
    MembersOf(idle[h]);
    ListedRest(idle, all, cs, h);
    assert |idle - {h}| < |idle| by { assert (idle - {h}).Keys == idle.Keys - {h}; }
    TotalIsCount(idle - {h}, all - Members(idle[h]), cs);
  }

  lemma ListedRest(idle: Lists, all: set<IdleStream>, cs: ConnStreams, h: Host)
    requires Listed(idle, all, cs) && h in idle
    ensures Listed(idle - {h}, all - Members(idle[h]), cs)
    ensures |Of(all, cs)| == |Of(all - Members(idle[h]), cs)| + |Members(idle[h])|
  {
    var mine, rest := Members(idle[h]), idle - {h};
    forall s <- all - mine ensures s.conn == cs ==> s in At(rest, s.host) {
      if s.conn == cs { assert s in At(idle, s.host) && s.host != h; }
    }
    forall g <- rest
      ensures rest[g] != [] && NoRepeat(rest[g])
      ensures forall s <- rest[g] :: s in all - mine && s.conn == cs && s.host == g
    {
      assert rest[g] == idle[g];
    }
    assert Of(all, cs) == Of(all - mine, cs) + mine;
  }

  /** Without its last member a list is what it was before that was appended. */
  lemma KeepLast(s: seq<IdleStream>, all: set<IdleStream>)
    requires s != [] && NoRepeat(s) && forall x <- s :: x in all
    ensures Keep(s, all - {s[|s| - 1]}) + [s[|s| - 1]] == s
  {
    KeepTail(s, |s| - 1, all - {s[|s| - 1]});
  }
}

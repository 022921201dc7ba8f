/** The TCP ingress: reading a request head without re-serializing it (`readRequestHead`,
    `parseHost`), the stream preamble, and what reaches the agent's backend in the end. */
module Ingress {
  import opened Basics
  import opened Bytes
  import opened Options
  import opened Readers
  import opened Route

  const HEAD_BUFFER: nat := 512

  // ---- parseHost ----

  function SplitLines(s: Bytes): (ls: seq<Bytes>)
    ensures ls != []
    decreases |s|
  {
    var i := IndexCRLF(s); if i < 0 then [s] else [s[..i]] + SplitLines(s[i + 2..])
  }

  predicate IsHostLine(l: Bytes) { |l| >= 5 && EqualFold(l[..5], "host:") }

  /** The values of the Host lines among `ls`. */
  function HostValues(ls: seq<Bytes>): seq<Bytes> {
    if ls == [] then [] else (if IsHostLine(ls[0]) then [ls[0][5..]] else []) + HostValues(ls[1..])
  }

  datatype HostResult = Host(host: Bytes) | NoHost | ManyHosts

  /** Exactly one Host line is needed. */
  function HostOf(head: Bytes): HostResult {
    var vs := HostValues(SplitLines(head)[1..]);
    if vs == [] then NoHost else if |vs| > 1 then ManyHosts else Host(Normalize(TrimSpace(vs[0])))
  }

  lemma {:induction false} HostValuesLast(ls: seq<Bytes>, l: Bytes)
    ensures HostValues(ls + [l]) == HostValues(ls) + if IsHostLine(l) then [l[5..]] else []
  {
    if ls == [] {
      assert ls + [l] == [l] && [l][1..] == [];
    } else {
      HostValuesLast(ls[1..], l);
      assert (ls + [l])[1..] == ls[1..] + [l];
    }
  }

  lemma {:induction false} HostValuesGrow(a: seq<Bytes>, b: seq<Bytes>)
    ensures |HostValues(a + b)| == |HostValues(a)| + |HostValues(b)|
  {
    if a == [] {
      assert a + b == b;
    } else {
      HostValuesGrow(a[1..], b);
      assert (a + b)[1..] == a[1..] + b;
    }
  }

  method ParseHost(head: Bytes) returns (r: HostResult)
    ensures r == HostOf(head)
  {
    var ls := SplitLines(head)[1..];
    var host: Bytes, found := [], false;
    for i := 0 to |ls|
      invariant HostValues(ls[..i]) == if found then [host] else []
    {
      HostValuesLast(ls[..i], ls[i]);
      assert ls[..i + 1] == ls[..i] + [ls[i]];
      if IsHostLine(ls[i]) {
        if found {
          HostValuesGrow(ls[..i + 1], ls[i + 1..]);
          assert ls == ls[..i + 1] + ls[i + 1..];
          return ManyHosts;
        }
        host, found := ls[i][5..], true;
      }
    }
    assert ls[..|ls|] == ls;
    return if found then Host(Normalize(TrimSpace(host))) else NoHost;
  }

  // ---- readRequestHead ----

  predicate BlankLine(s: Bytes, j: int) {
    0 <= j && j + 4 <= |s| && s[j] == '\r' && s[j + 1] == '\n' && s[j + 2] == '\r' && s[j + 3] == '\n'
  }

  /** Where the first blank line from `i` on starts, or -1. */
  function BlankFrom(s: Bytes, i: nat): (r: int)
    ensures r >= -1 && (r >= 0 ==> i <= r && BlankLine(s, r))
    ensures forall j :: i <= j && BlankLine(s, j) ==> 0 <= r <= j
    decreases |s| - i
  {
    if i >= |s| then -1 else if BlankLine(s, i) then i else BlankFrom(s, i + 1)
  }

  function BlankAt(s: Bytes): int { BlankFrom(s, 0) }

  /** Only bytes up to the end of the blank line decide where it is. */
  lemma BlankStable(s: Bytes, more: Bytes)
    ensures BlankAt(s) >= 0 ==> BlankAt(s + more) == BlankAt(s)
    ensures 0 <= BlankAt(s + more) <= |s| - 4 ==> BlankAt(s) == BlankAt(s + more)
  {
    var t := s + more;
    assert forall j :: 0 <= j < |s| ==> t[j] == s[j];
    assert forall j :: 0 <= j <= |s| - 4 ==> (BlankLine(t, j) <==> BlankLine(s, j));
    if BlankAt(s) >= 0 { assert BlankLine(t, BlankAt(s)); }
    if 0 <= BlankAt(t) <= |s| - 4 { assert BlankLine(s, BlankAt(t)); }
  }

  datatype HeadResult =
    | Got(head: Bytes, host: Bytes)  // everything read so far, and the routed host
    | TooLarge | BadHost | NoRequest | Incomplete

  /** `readRequestHead` after reading `buf`, when the reads still to come are `chunks`: the result, and what is
      unread. */
  function HeadRead(buf: Bytes, chunks: seq<Bytes>): (HeadResult, seq<Bytes>)
    decreases |chunks|
  {
    if chunks == [] then (if buf == [] then NoRequest else Incomplete, [])
    else
      var b := buf + chunks[0];
      if |b| > MAX_HEADER_BYTES then (TooLarge, chunks[1..])
      else if BlankAt(b) >= 0 then
        (match HostOf(b[..BlankAt(b)]) { case Host(h) => Got(b, h) case _ => BadHost }, chunks[1..])
      else HeadRead(b, chunks[1..])
  }

  predicate Readable(chunks: seq<Bytes>) { forall k :: 0 <= k < |chunks| ==> 0 < |chunks[k]| <= HEAD_BUFFER }

  method ReadRequestHead(conn: Upstream) returns (r: HeadResult)
    requires Readable(conn.chunks)
    modifies conn
    ensures (r, conn.chunks) == HeadRead([], old(conn.chunks)) && Readable(conn.chunks)
  {
    var buf := [];
    while true
      invariant Readable(conn.chunks)
      invariant HeadRead(buf, conn.chunks) == HeadRead([], old(conn.chunks))
      decreases |conn.chunks|
    {
      var c, eof := conn.Read(HEAD_BUFFER);
      if eof { return if buf == [] then NoRequest else Incomplete; }
      buf := buf + c;
      if |buf| > MAX_HEADER_BYTES { return TooLarge; }
      var i := BlankAt(buf);
      if i >= 0 {
        var h := ParseHost(buf[..i]);
        return match h { case Host(host) => Got(buf, host) case _ => BadHost };
      }
    }
  }

  ghost predicate Kept(r: HeadResult, left: seq<Bytes>, s: Bytes) {
    r.Got? ==> r.head + Concat(left) == s && BlankAt(s) >= 0 && HostOf(s[..BlankAt(s)]) == Host(r.host)
  }

  lemma FoundKeeps(b: Bytes, left: seq<Bytes>, h: Bytes)
    requires BlankAt(b) >= 0 && HostOf(b[..BlankAt(b)]) == Host(h)
    ensures Kept(Got(b, h), left, b + Concat(left))
  {
    var s := b + Concat(left);
    BlankStable(b, Concat(left));
    assert s[..BlankAt(b)] == b[..BlankAt(b)];
  }

  /** Nothing is lost or repeated, and the host is decided by the bytes before the first blank line of the stream. */
  lemma {:induction false} HeadKeepsBytes(buf: Bytes, chunks: seq<Bytes>)
    ensures var (r, left) := HeadRead(buf, chunks); Kept(r, left, buf + Concat(chunks))
    decreases |chunks|
  {
    if chunks != [] {
      var b := buf + chunks[0];
      Assoc(buf, chunks[0], Concat(chunks[1..]));
      if |b| <= MAX_HEADER_BYTES && BlankAt(b) < 0 {
        HeadKeepsBytes(b, chunks[1..]);
      } else if |b| <= MAX_HEADER_BYTES && HostOf(b[..BlankAt(b)]).Host? {
        FoundKeeps(b, chunks[1..], HostOf(b[..BlankAt(b)]).host);
      }
    }
  }

  /** How reading the head can end, by all there is to read. */
  ghost predicate Read(r: HeadResult, s: Bytes) {
    && (r.NoRequest? <==> s == [])
    && (r.Incomplete? ==> s != [] && BlankAt(s) < 0)
    && (r.BadHost? || r.Got? ==> BlankAt(s) >= 0)
    && (r.BadHost? ==> !HostOf(s[..BlankAt(s)]).Host?)
    && (r.Got? ==> HostOf(s[..BlankAt(s)]) == Host(r.host))
    && (|s| <= MAX_HEADER_BYTES ==> !r.TooLarge?)
  }

  lemma StopsRead(b: Bytes, more: Bytes)
    requires BlankAt(b) >= 0
    ensures BlankAt(b + more) == BlankAt(b) && (b + more)[..BlankAt(b)] == b[..BlankAt(b)]
  {
    BlankStable(b, more);
  }

  /** No request is told from an incomplete one by whether anything was sent at all, and a head is refused for its host
      only if its fields do not name one; a stream within the limit is never too large. */
  lemma {:induction false} HeadMeans(buf: Bytes, chunks: seq<Bytes>)
    requires Readable(chunks) && BlankAt(buf) < 0
    ensures Read(HeadRead(buf, chunks).0, buf + Concat(chunks))
    decreases |chunks|
  {
    if chunks == [] {
      assert buf + Concat(chunks) == buf;
    } else {
      var b, more := buf + chunks[0], Concat(chunks[1..]);
      Assoc(buf, chunks[0], more);
      assert buf + Concat(chunks) == b + more;
      if |b| <= MAX_HEADER_BYTES {
        if BlankAt(b) < 0 { HeadMeans(b, chunks[1..]); } else { StopsRead(b, more); }
      }
    }
  }

  /** The most that can be buffered when the blank line at `i` completes. */
  function WorstCase(s: Bytes, i: nat): int { Min(|s|, i + 3 + HEAD_BUFFER) }

  lemma {:induction false} NeverTooLarge(buf: Bytes, chunks: seq<Bytes>, i: nat)
    requires Readable(chunks) && BlankAt(buf + Concat(chunks)) == i && |buf| <= i + 3
    requires WorstCase(buf + Concat(chunks), i) <= MAX_HEADER_BYTES
    ensures HeadRead(buf, chunks).0 != TooLarge
    decreases |chunks|
  {
    if chunks != [] {
      var b, more := buf + chunks[0], Concat(chunks[1..]);
      assert b + more == buf + Concat(chunks);
      BlankStable(b, more);
      if BlankAt(b) < 0 { NeverTooLarge(b, chunks[1..], i); }
    }
  }

  /** Reading bytes one by one, as long as no blank line completes. */
  lemma {:induction false} ReadsSingly(buf: Bytes, x: Bytes, cs: seq<Bytes>)
    requires |buf + x| <= MAX_HEADER_BYTES && BlankAt(buf + x) < 0
    ensures HeadRead(buf, Singles(x) + cs) == HeadRead(buf + x, cs)
    decreases |x|
  {
    if x == [] {
      assert Singles(x) + cs == cs && buf + x == buf;
    } else {
      var b := buf + [x[0]];
      assert b + x[1..] == buf + x;
      assert (Singles(x) + cs)[0] == [x[0]] && (Singles(x) + cs)[1..] == Singles(x[1..]) + cs;
      BlankStable(b, x[1..]);
      ReadsSingly(b, x[1..], cs);
    }
  }

  /** An unlucky chunking: all of `s` up to just before its blank line completes, then as much as one read takes. */
  function Unlucky(s: Bytes, p: nat): seq<Bytes>
    requires p < |s|
  {
    var n := Min(HEAD_BUFFER, |s| - p);
    Singles(s[..p]) + ([s[p..p + n]] + Singles(s[p + n..]))
  }

  lemma UnluckyIsChunking(s: Bytes, p: nat)
    requires p < |s|
    ensures Concat(Unlucky(s, p)) == s && Readable(Unlucky(s, p))
  {
    var n := Min(HEAD_BUFFER, |s| - p);
    var rest := [s[p..p + n]] + Singles(s[p + n..]);
    ConcatSplit(Singles(s[..p]), rest);
    assert rest[1..] == Singles(s[p + n..]);
    assert s[..p] + (s[p..p + n] + s[p + n..]) == s;
  }

  lemma Overflows(x: Bytes, c: Bytes, cs: seq<Bytes>)
    requires |x + c| > MAX_HEADER_BYTES
    ensures HeadRead(x, [c] + cs).0 == TooLarge
  {}

  lemma NoBlankYet(s: Bytes, p: nat)
    requires p <= |s| && p <= BlankAt(s) + 3
    ensures BlankAt(s[..p]) < 0
  {
    assert s == s[..p] + s[p..];
    BlankStable(s[..p], s[p..]);
  }

  lemma UnluckyRead(s: Bytes, p: nat)
    requires p < |s| && p <= BlankAt(s) + 3 && p <= MAX_HEADER_BYTES && p + Min(HEAD_BUFFER, |s| - p) > MAX_HEADER_BYTES
    ensures HeadRead([], Unlucky(s, p)).0 == TooLarge
  {
    var x, n := s[..p], Min(HEAD_BUFFER, |s| - p);
    NoBlankYet(s, p);
    assert [] + x == x;
    ReadsSingly([], x, [s[p..p + n]] + Singles(s[p + n..]));
    Overflows(x, s[p..p + n], Singles(s[p + n..]));
  }

  lemma UnluckyIsTooLarge(s: Bytes, i: nat)
    requires BlankAt(s) == i && WorstCase(s, i) > MAX_HEADER_BYTES
    ensures var p := Min(i + 3, MAX_HEADER_BYTES); p < |s| && HeadRead([], Unlucky(s, p)).0 == TooLarge
  {
    UnluckyRead(s, Min(i + 3, MAX_HEADER_BYTES));
  }

  /** The head limit, exactly: no chunking of a stream with a blank line is refused as too large if and only if the
      blank line and one more read's worth of bytes fit the limit. Bytes of the body count when they arrive with it. */
  lemma HeadLimit(s: Bytes)
    requires BlankAt(s) >= 0
    ensures (forall chunks: seq<Bytes> | Readable(chunks) && Concat(chunks) == s :: HeadRead([], chunks).0 != TooLarge)
      <==> WorstCase(s, BlankAt(s)) <= MAX_HEADER_BYTES
  {
    var i := BlankAt(s);
    if WorstCase(s, i) <= MAX_HEADER_BYTES {
      forall chunks: seq<Bytes> | Readable(chunks) && Concat(chunks) == s ensures HeadRead([], chunks).0 != TooLarge {
        assert [] + Concat(chunks) == s;
        NeverTooLarge([], chunks, i);
      }
    } else {
      UnluckyIsTooLarge(s, i);
      UnluckyIsChunking(s, Min(i + 3, MAX_HEADER_BYTES));
    }
  }

  // ---- Preamble ----

  const MAX_PREAMBLE: nat := 4096

  /** `EncodePreamble`: two length bytes, most significant first, then the payload. */
  function EncodePreamble(payload: Bytes): (r: Option<Bytes>)
    ensures r.Some? <==> |payload| <= 4096
  {
    if |payload| > MAX_PREAMBLE then None
    else Some([(|payload| / 256) as char, (|payload| % 256) as char] + payload)
  }

  /** The payload at the start of a stream, and the bytes after it. */
  function DecodePreamble(s: Bytes): Option<(Bytes, Bytes)> {
    if |s| < 2 then None
    else
      var n := s[0] as int * 256 + s[1] as int;
      if n > MAX_PREAMBLE || |s| < 2 + n then None else Some((s[2..2 + n], s[2 + n..]))
  }

  method ReadPreamble(conn: Upstream) returns (p: Option<Bytes>)
    modifies conn
    ensures match DecodePreamble(Concat(old(conn.chunks)))
            case None => p == None
            case Some((payload, after)) => p == Some(payload) && Concat(conn.chunks) == after
  {
    ghost var s := Concat(conn.chunks);
    var hdr, ok := conn.ReadFull(2);
    if !ok { return None; }
    assert hdr[0] == s[0] && hdr[1] == s[1] && Concat(conn.chunks) == s[2..];
    var n := hdr[0] as int * 256 + hdr[1] as int;
    if n > MAX_PREAMBLE { return None; }
    var body, whole := conn.ReadFull(n);
    if !whole { return None; }
    assert s[2..] == body + Concat(conn.chunks);
    assert s[2..2 + n] == body && s[2 + n..] == Concat(conn.chunks);
    p := Some(body);
  }

  lemma PreambleBack(payload: Bytes, after: Bytes)
    requires |payload| <= 4096
    ensures DecodePreamble(EncodePreamble(payload).value + after) == Some((payload, after))
  {
    var s, n := EncodePreamble(payload).value + after, |payload|;
    assert s[0] as int == n / 256 && s[1] as int == n % 256;
    assert s[2..2 + n] == payload && s[2 + n..] == after;
  }

  // ---- End to end ----

  /** Everything the edge writes to a stream, once the client has sent all of it: the preamble, and then, with a version
      2 agent, the head together with it and the rest through the pipe; with a version 1 agent, head and rest through
      the pipe, the head put back in front of the connection (`PrefixConn`). */
  method Forward(payload: Bytes, head: Bytes, conn: Upstream, v2: bool, room: nat) returns (out: Bytes)
    requires |payload| <= MAX_PREAMBLE && room > 0
    modifies conn
    ensures out == EncodePreamble(payload).value + (head + Concat(old(conn.chunks)))
  {
    ghost var frame := EncodePreamble(payload).value;
    out := EncodePreamble(payload).value;
    ghost var all := Concat(conn.chunks);
    if v2 { out := out + head; }
    var src := new PrefixConn(conn, if v2 then [] else head);
    while true
      invariant fresh(src) && src.conn == conn
      invariant out + src.Due() == frame + (head + all)
      decreases |src.Due()|, |conn.chunks|
    {
      var c, eof := src.Read(room);
      if eof {
        assert src.Due() == [];
        break;
      }
      Assoc(out, c, src.Due());
      out := out + c;
    }
    assert out + [] == out;
  }

  /** The agent's side: read the preamble, forward the rest to the backend as it comes. */
  method Receive(tunnel: Upstream, room: nat) returns (p: Option<Bytes>, forwarded: Bytes)
    requires room > 0
    modifies tunnel
    ensures match DecodePreamble(Concat(old(tunnel.chunks)))
            case None => p == None && forwarded == []
            case Some((payload, after)) => p == Some(payload) && forwarded == after
  {
    forwarded := [];
    p := ReadPreamble(tunnel);
    if p.Some? { forwarded := CopyAll(tunnel, room); }
  }

  /** Everything still to come. */
  method CopyAll(conn: Upstream, room: nat) returns (out: Bytes)
    requires room > 0
    modifies conn
    ensures out == Concat(old(conn.chunks))
  {
    out := [];
    ghost var all := Concat(conn.chunks);
    while true
      invariant out + Concat(conn.chunks) == all
      decreases |Concat(conn.chunks)|, |conn.chunks|
    {
      ghost var before := out;
      var c, eof := conn.Read(room);
      if eof { return; }
      Assoc(before, c, Concat(conn.chunks));
      out := out + c;
    }
  }

  /** Byte-stream fidelity: for every chunking of the client's stream, what `Forward` writes for a head that was read
      (with either tunnel version) leaves, once the preamble is taken off, exactly the client's stream; and the host
      routed on is that of the bytes before its first blank line. */
  lemma Fidelity(chunks: seq<Bytes>, payload: Bytes)
    requires HeadRead([], chunks).0.Got? && |payload| <= MAX_PREAMBLE
    ensures var (r, left) := HeadRead([], chunks);
      var s := Concat(chunks);
      && DecodePreamble(EncodePreamble(payload).value + (r.head + Concat(left))) == Some((payload, s))
      && BlankAt(s) >= 0 && HostOf(s[..BlankAt(s)]) == Host(r.host)
  {
    HeadKeepsBytes([], chunks);
    assert [] + Concat(chunks) == Concat(chunks);
    PreambleBack(payload, Concat(chunks));
  }

  /** From the client's connection to the agent's backend: the edge reads the head and forwards, the tunnel cuts its
      bytes up anyhow, and the agent takes the preamble off. Whatever the chunking on either side, the buffer sizes
      and the tunnel version, a request whose head was read arrives as the client sent it, and nothing else arrives. */
  method Relay(conn: Upstream, payload: Bytes, v2: bool, cut: Bytes -> seq<Bytes>, edgeRoom: nat, agentRoom: nat)
    returns (r: HeadResult, p: Option<Bytes>, forwarded: Bytes)
    requires Readable(conn.chunks) && |payload| <= MAX_PREAMBLE && edgeRoom > 0 && agentRoom > 0
    requires forall b: Bytes :: Concat(cut(b)) == b
    modifies conn
    ensures r == HeadRead([], old(conn.chunks)).0
    ensures if r.Got? then p == Some(payload) && forwarded == Concat(old(conn.chunks)) else p == None && forwarded == []
    ensures r.Got? ==>
      var s := Concat(old(conn.chunks)); BlankAt(s) >= 0 && HostOf(s[..BlankAt(s)]) == Host(r.host)
  {
    ghost var sent := conn.chunks;
    r := ReadRequestHead(conn);
    if !r.Got? { return r, None, []; }
    Fidelity(sent, payload);
    var out := Forward(payload, r.head, conn, v2, edgeRoom);
    var tunnel := new Upstream(cut(out));
    p, forwarded := Receive(tunnel, agentRoom);
  }
}

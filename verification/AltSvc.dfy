/** The Alt-Svc editor of the TCP ingress: `altSvcConn` collects the first final response head of
    a stream that arrives in arbitrary pieces and edits it. `OneShot` is the reference: the same
    edit on the whole stream at once. */
module AltSvc {
  import opened Basics
  import opened Bytes
  import opened Readers

  // ---- Where a head ends ----

  /** The line break at `i` is followed by an empty line, whose own line break has arrived. */
  predicate Blank(s: Bytes, i: int) {
    && 0 <= i && i + 1 < |s| && s[i] == '\n'
    && (s[i + 1] == '\n' || (i + 2 < |s| && s[i + 1] == '\r' && s[i + 2] == '\n'))
  }

  predicate HasBareLF(s: Bytes) {
    exists i :: 0 <= i < |s| && s[i] == '\n' && (i == 0 || s[i - 1] != '\r')
  }

  datatype HeadMark = NoHead | Head(end: nat, crlf: bool)

  /** The mark of the head whose last line break is at `i`. */
  function MarkAt(s: Bytes, i: int): (m: HeadMark)
    requires Blank(s, i)
    ensures m.Head? && m.end <= i && (m.crlf ==> m.end + 4 <= |s| && s[m.end..m.end + 4] == "\r\n\r\n")
  {
    var end := if i > 0 && s[i - 1] == '\r' then i - 1 else i;
    Head(end, end == i - 1 && s[i + 1] == '\r' && !HasBareLF(s[..i + 1]))
  }

  /** The first line break from `i` on that ends a head, or -1. */
  function FirstBlank(s: Bytes, i: nat): (r: int)
    ensures r >= 0 ==> i <= r && Blank(s, r)
    ensures forall j :: i <= j && Blank(s, j) ==> 0 <= r <= j
    decreases |s| - i
  {
    if i >= |s| then -1 else if Blank(s, i) then i else FirstBlank(s, i + 1)
  }

  function Mark(s: Bytes): HeadMark {
    var i := FirstBlank(s, 0);
    if i < 0 then NoHead else MarkAt(s, i)
  }

  method IndexLF(s: Bytes, from: nat) returns (r: int)
    requires from <= |s|
    ensures -1 <= r < |s|
    ensures r >= 0 ==> from <= r && s[r] == '\n'
    ensures forall j :: from <= j < |s| && (r < 0 || j < r) ==> s[j] != '\n'
  {
    r := from;
    while r < |s|
      invariant from <= r <= |s|
      invariant forall j :: from <= j < r ==> s[j] != '\n'
    {
      if s[r] == '\n' { return; }
      r := r + 1;
    }
    r := -1;
  }

  method BareLF(s: Bytes) returns (b: bool)
    ensures b == HasBareLF(s)
  {
    for i := 0 to |s|
      invariant !HasBareLF(s[..i])
    {
      if s[i] == '\n' && (i == 0 || s[i - 1] != '\r') { return true; }
      assert s[..i + 1] == s[..i] + [s[i]];
      assert forall j :: 0 <= j < i ==> s[..i][j] == s[j];
    }
    assert s[..|s|] == s;
    return false;
  }

  /** `headEnd`: the scan from line break to line break finds the first blank line. */
  method HeadEnd(s: Bytes) returns (m: HeadMark)
    ensures m == Mark(s)
  {
    var i := IndexLF(s, 0);
    while i >= 0 && i + 1 < |s|
      invariant -1 <= i < |s|
      invariant i >= 0 ==> s[i] == '\n'
      invariant forall j :: 0 <= j && (i < 0 || j < i) ==> !Blank(s, j)
      decreases if i < 0 then 0 else |s| - i
    {
      if s[i + 1] == '\n' || (i + 2 < |s| && s[i + 1] == '\r' && s[i + 2] == '\n') {
        assert Blank(s, i) && FirstBlank(s, 0) == i;
        var end := if i > 0 && s[i - 1] == '\r' then i - 1 else i;
        var bare := BareLF(s[..i + 1]);
        return Head(end, end == i - 1 && s[i + 1] == '\r' && !bare);
      }
      i := IndexLF(s, i + 1);
    }
    return NoHead;
  }

  /** More bytes never move a head that has been found. */
  lemma MarkStable(s: Bytes, more: Bytes)
    requires Mark(s).Head?
    ensures Mark(s + more) == Mark(s)
  {
    var t, i := s + more, FirstBlank(s, 0);
    assert forall j :: 0 <= j < |s| ==> t[j] == s[j];
    assert Blank(t, i);
    assert forall j :: 0 <= j < i && Blank(t, j) ==> Blank(s, j);
    assert t[..i + 1] == s[..i + 1];
  }

  /** A head with CRLF line breaks is found as soon as its blank line has arrived. */
  lemma MarkPrompt(s: Bytes, more: Bytes)
    requires Mark(s + more).Head? && Mark(s + more).crlf && Mark(s + more).end + 4 <= |s|
    ensures Mark(s) == Mark(s + more)
  {
    var t := s + more;
    var i := FirstBlank(t, 0);
    assert forall j :: 0 <= j < |s| ==> t[j] == s[j];
    assert Blank(s, i);
    MarkStable(s, more);
  }

  // ---- Status line ----

  function FirstLine(head: Bytes): Bytes {
    if head == [] || head[0] == '\n' then [] else [head[0]] + FirstLine(head[1..])
  }

  /** The status code of a response head, or "" when it has none. */
  function StatusCode(head: Bytes): (c: Bytes)
    ensures c == "" || |c| == 3
  {
    var f := Fields(FirstLine(head));
    if |f| < 2 || !("HTTP/1." <= f[0]) || |f[1]| != 3 then "" else f[1]
  }

  predicate IsInterim(head: Bytes) {
    var c := StatusCode(head); c != "" && c[0] == '1' && c != "101"
  }

  /** A head that may be annotated: a response other than 1xx. */
  predicate IsFinal(head: Bytes) {
    var c := StatusCode(head); c != "" && c[0] != '1'
  }

  // ---- Field lines ----

  predicate Folded(l: Bytes) { l != "" && (l[0] == ' ' || l[0] == '\t') }

  function BeforeColon(l: Bytes): Bytes {
    if l == [] || l[0] == ':' then [] else [l[0]] + BeforeColon(l[1..])
  }

  predicate IsAltSvcField(l: Bytes) {
    !Folded(l) && ':' in l && EqualFold(TrimSpace(BeforeColon(l)), "alt-svc")
  }

  /** The lines of a field section. */
  function Lines(s: Bytes): seq<Bytes>
    decreases |s|
  {
    if s == [] then []
    else var i := IndexCRLF(s); if i < 0 then [s] else [s[..i]] + Lines(s[i + 2..])
  }

  /** The lines that stay: Alt-Svc lines go, and with them the folded lines that continue them. */
  function Kept(ls: seq<Bytes>, dropping: bool): seq<Bytes> {
    if ls == [] then []
    else if Folded(ls[0]) && dropping then Kept(ls[1..], true)
    else if IsAltSvcField(ls[0]) then Kept(ls[1..], true)
    else [ls[0]] + Kept(ls[1..], false)
  }

  function Joined(ls: seq<Bytes>): Bytes { if ls == [] then [] else CRLF + ls[0] + Joined(ls[1..]) }

  function AltSvcLine(value: Bytes): Bytes { "Alt-Svc: " + value }

  function StatusLine(head: Bytes): Bytes { var i := IndexCRLF(head); if i < 0 then head else head[..i] }
  function FieldSection(head: Bytes): Bytes { var i := IndexCRLF(head); if i < 0 then [] else head[i + 2..] }

  predicate SetsAltSvc(ls: seq<Bytes>) { exists k :: 0 <= k < |ls| && IsAltSvcField(ls[k]) }

  /** What becomes of a head. */
  function EditedHead(head: Bytes, value: Bytes, replace: bool): Bytes {
    var ls := Lines(FieldSection(head));
    if !IsFinal(head) || (!replace && SetsAltSvc(ls)) then head
    else StatusLine(head) + Joined(Kept(ls, false)) + CRLF + AltSvcLine(value)
  }

  lemma {:induction false} JoinedLast(a: seq<Bytes>, l: Bytes)
    ensures Joined(a + [l]) == Joined(a) + CRLF + l
  {
    if a == [] {
      assert Joined([l]) == CRLF + l + Joined([]);
    } else {
      JoinedLast(a[1..], l);
      assert (a + [l])[1..] == a[1..] + [l];
    }
  }

  /** One turn of the loop below: what is kept so far and what is still to come. */
  lemma KeptTurn(kept: seq<Bytes>, ls: seq<Bytes>, dropping: bool)
    requires ls != []
    ensures Folded(ls[0]) && dropping ==> Kept(ls, dropping) == Kept(ls[1..], true)
    ensures IsAltSvcField(ls[0]) ==> Kept(ls, dropping) == Kept(ls[1..], true)
    ensures !(Folded(ls[0]) && dropping) && !IsAltSvcField(ls[0]) ==>
      kept + Kept(ls, dropping) == (kept + [ls[0]]) + Kept(ls[1..], false)
  {
    Assoc(kept, [ls[0]], Kept(ls[1..], false));
  }

  /** Cutting the next line off a field section. */
  function NextLine(s: Bytes): (r: (Bytes, Bytes))
    requires s != []
    ensures Lines(s) == [r.0] + Lines(r.1) && |r.1| < |s|
  {
    var i := IndexCRLF(s); if i < 0 then (s, []) else (s[..i], s[i + 2..])
  }

  lemma SetsNext(ls: seq<Bytes>)
    requires ls != []
    ensures SetsAltSvc(ls) <==> IsAltSvcField(ls[0]) || SetsAltSvc(ls[1..])
  {
    assert forall k :: 0 < k < |ls| ==> ls[k] == ls[1..][k - 1];
  }

  /** The loop of `withAltSvc`: `own` reports an Alt-Svc line that is to be left alone. */
  method KeepLines(section: Bytes, replace: bool) returns (own: bool, out: Bytes)
    ensures own == (!replace && SetsAltSvc(Lines(section)))
    ensures !own ==> out == Joined(Kept(Lines(section), false))
  {
    var fields, dropping := section, false;
    ghost var kept: seq<Bytes> := [];
    out := [];
    while fields != []
      invariant out == Joined(kept)
      invariant Kept(Lines(section), false) == kept + Kept(Lines(fields), dropping)
      invariant !replace ==> !dropping && (SetsAltSvc(Lines(section)) <==> SetsAltSvc(Lines(fields)))
      decreases |fields|
    {
      KeptTurn(kept, Lines(fields), dropping);
      SetsNext(Lines(fields));
      var (l, rest) := NextLine(fields);
      assert Lines(fields)[0] == l && Lines(fields)[1..] == Lines(rest);
      fields := rest;
      if !(Folded(l) && dropping) {
        dropping := IsAltSvcField(l);
        if !dropping {
          JoinedLast(kept, l);
          out := out + CRLF + l;
          kept := kept + [l];
        } else if !replace {
          return true, [];
        }
      }
    }
    assert kept + [] == kept;
    own := false;
  }

  method WithAltSvc(s: Bytes, end: nat, value: Bytes, replace: bool) returns (out: Bytes)
    requires end <= |s|
    ensures out == EditedHead(s[..end], value, replace) + s[end..]
  {
    var head := s[..end];
    assert s == head + s[end..];
    if !IsFinal(head) { return s; }
    var own, fields := KeepLines(FieldSection(head), replace);
    if own { return s; }
    out := StatusLine(head) + fields + CRLF + AltSvcLine(value) + s[end..];
  }

  // ---- Streaming against the one-shot edit ----

  /** The edit on the whole stream at once: interim heads pass, the first final head is edited. */
  function OneShot(s: Bytes, value: Bytes, replace: bool): Bytes
    decreases |s|
  {
    var m := Mark(s);
    if m.NoHead? || !m.crlf || m.end > MAX_HEADER_BYTES then s
    else if IsInterim(s[..m.end]) then s[..m.end + 4] + OneShot(s[m.end + 4..], value, replace)
    else EditedHead(s[..m.end], value, replace) + s[m.end..]
  }

  /** What `altSvcConn` delivers, in total, when `buf` is collected and the tunnel then yields `chunks` and ends. */
  function Streamed(buf: Bytes, chunks: seq<Bytes>, value: Bytes, replace: bool): Bytes
    decreases |chunks|, |buf|
  {
    var m := Mark(buf);
    if m.Head? then
      if !m.crlf || m.end > MAX_HEADER_BYTES then buf + Concat(chunks)
      else if IsInterim(buf[..m.end]) then buf[..m.end + 4] + Streamed(buf[m.end + 4..], chunks, value, replace)
      else EditedHead(buf[..m.end], value, replace) + buf[m.end..] + Concat(chunks)
    else if |buf| > MAX_HEADER_BYTES || chunks == [] then buf + Concat(chunks)
    else Streamed(buf + chunks[0], chunks[1..], value, replace)
  }

  /** On the way to the head to edit, some head within the limit has its blank line end more than one byte past it. */
  predicate Straddles(s: Bytes)
    decreases |s|
  {
    var m := Mark(s);
    && m.Head? && m.crlf && m.end <= MAX_HEADER_BYTES
    && (m.end + 3 > MAX_HEADER_BYTES || (IsInterim(s[..m.end]) && Straddles(s[m.end + 4..])))
  }

  /** A found head splits the stream the same way, however much of it has arrived. */
  lemma FoundHead(buf: Bytes, more: Bytes)
    requires Mark(buf).Head? && Mark(buf).crlf
    ensures Mark(buf + more) == Mark(buf)
    ensures var n := Mark(buf).end;
      && (buf + more)[..n] == buf[..n] && (buf + more)[n..] == buf[n..] + more
      && (buf + more)[..n + 4] == buf[..n + 4] && (buf + more)[n + 4..] == buf[n + 4..] + more
  {
    MarkStable(buf, more);
  }

  /** Streaming gives the one-shot edit or, when the stream straddles the limit, perhaps the stream unchanged. */
  ghost predicate Either(buf: Bytes, chunks: seq<Bytes>, value: Bytes, replace: bool) {
    var s := buf + Concat(chunks);
    var out := Streamed(buf, chunks, value, replace);
    out == OneShot(s, value, replace) || (Straddles(s) && out == s)
  }

  lemma EitherInterim(buf: Bytes, chunks: seq<Bytes>, value: Bytes, replace: bool)
    requires Mark(buf).Head? && Mark(buf).crlf && Mark(buf).end <= MAX_HEADER_BYTES && IsInterim(buf[..Mark(buf).end])
    requires Either(buf[Mark(buf).end + 4..], chunks, value, replace)
    ensures Either(buf, chunks, value, replace)
  {
    var n, more := Mark(buf).end + 4, Concat(chunks);
    var s, t := buf + more, buf[n..] + more;
    FoundHead(buf, more);
    InterimPasses(s, value, replace);
    StreamPasses(buf, chunks, value, replace);
    SplitMore(buf, n, more);
    assert s[..n] == buf[..n] && s[n..] == t;
  }

  lemma SplitMore(s: Bytes, n: nat, more: Bytes)
    requires n <= |s|
    ensures s + more == s[..n] + (s[n..] + more)
  {}

  lemma StreamPasses(buf: Bytes, chunks: seq<Bytes>, value: Bytes, replace: bool)
    requires Mark(buf).Head? && Mark(buf).crlf && Mark(buf).end <= MAX_HEADER_BYTES && IsInterim(buf[..Mark(buf).end])
    ensures var n := Mark(buf).end + 4;
      Streamed(buf, chunks, value, replace) == buf[..n] + Streamed(buf[n..], chunks, value, replace)
  {}

  lemma InterimPasses(s: Bytes, value: Bytes, replace: bool)
    requires Mark(s).Head? && Mark(s).crlf && Mark(s).end <= MAX_HEADER_BYTES && IsInterim(s[..Mark(s).end])
    ensures var n := Mark(s).end + 4;
      && OneShot(s, value, replace) == s[..n] + OneShot(s[n..], value, replace)
      && (Straddles(s[n..]) ==> Straddles(s))
  {}

  lemma EitherFound(buf: Bytes, chunks: seq<Bytes>, value: Bytes, replace: bool)
    requires Mark(buf).Head?
    requires !Mark(buf).crlf || Mark(buf).end > MAX_HEADER_BYTES || !IsInterim(buf[..Mark(buf).end])
    ensures Either(buf, chunks, value, replace)
  {
    var n, more := Mark(buf).end, Concat(chunks);
    MarkStable(buf, more);
    if Mark(buf).crlf && n <= MAX_HEADER_BYTES {
      FoundHead(buf, more);
      var e := EditedHead(buf[..n], value, replace);
      assert e + buf[n..] + more == e + (buf[n..] + more);
    }
  }

  lemma EitherGivesUp(buf: Bytes, chunks: seq<Bytes>, value: Bytes, replace: bool)
    requires Mark(buf).NoHead? && (|buf| > MAX_HEADER_BYTES || chunks == [])
    ensures Either(buf, chunks, value, replace)
  {
    var more := Concat(chunks);
    var w := Mark(buf + more);
    if w.Head? && w.crlf && w.end + 4 <= |buf| {
      MarkPrompt(buf, more);
    } else if chunks == [] {
      assert buf + more == buf;
    }
  }

  lemma EitherReads(buf: Bytes, chunks: seq<Bytes>, value: Bytes, replace: bool)
    requires Mark(buf).NoHead? && |buf| <= MAX_HEADER_BYTES && chunks != []
    requires Either(buf + chunks[0], chunks[1..], value, replace)
    ensures Either(buf, chunks, value, replace)
  {
    Assoc(buf, chunks[0], Concat(chunks[1..]));
    assert Streamed(buf, chunks, value, replace) == Streamed(buf + chunks[0], chunks[1..], value, replace);
  }

  lemma {:induction false} StreamedEither(buf: Bytes, chunks: seq<Bytes>, value: Bytes, replace: bool)
    ensures Either(buf, chunks, value, replace)
    decreases |chunks|, |buf|
  {
    var m := Mark(buf);
    if m.Head? {
      if m.crlf && m.end <= MAX_HEADER_BYTES && IsInterim(buf[..m.end]) {
        StreamedEither(buf[m.end + 4..], chunks, value, replace);
        EitherInterim(buf, chunks, value, replace);
      } else {
        EitherFound(buf, chunks, value, replace);
      }
    } else if |buf| > MAX_HEADER_BYTES || chunks == [] {
      EitherGivesUp(buf, chunks, value, replace);
    } else {
      StreamedEither(buf + chunks[0], chunks[1..], value, replace);
      EitherReads(buf, chunks, value, replace);
    }
  }

  /** A head found with the last byte ends with it. */
  lemma JustFound(buf: Bytes)
    requires Mark(buf).Head? && Mark(buf).crlf && Mark(buf[..|buf| - 1]).NoHead?
    ensures Mark(buf).end + 4 == |buf|
  {
    var before := buf[..|buf| - 1];
    assert buf == before + [buf[|buf| - 1]];
    if Mark(buf).end + 4 <= |before| { MarkPrompt(before, [buf[|buf| - 1]]); }
  }

  lemma StraddleHead(buf: Bytes, tail: Bytes)
    requires Straddles(buf + tail) && Mark(buf).Head?
    requires Mark(buf[..|buf| - 1]).NoHead? && |buf| <= MAX_HEADER_BYTES + 1
    ensures Mark(buf).crlf && Mark(buf).end + 4 == |buf| && IsInterim(buf[..Mark(buf).end]) && Straddles(tail)
  {
    MarkStable(buf, tail);
    FoundHead(buf, tail);
    JustFound(buf);
    assert buf[|buf|..] + tail == tail;
  }

  lemma ReadsOne(buf: Bytes, tail: Bytes, value: Bytes, replace: bool)
    requires Mark(buf).NoHead? && |buf| <= MAX_HEADER_BYTES && tail != []
    ensures Streamed(buf, Singles(tail), value, replace)
      == Streamed(buf + [tail[0]], Singles(tail[1..]), value, replace)
  {
    assert Singles(tail)[0] == [tail[0]] && Singles(tail)[1..] == Singles(tail[1..]);
  }

  lemma PassesInterim(buf: Bytes, chunks: seq<Bytes>, value: Bytes, replace: bool)
    requires Mark(buf).Head? && Mark(buf).crlf && Mark(buf).end + 4 == |buf|
    requires Mark(buf).end <= MAX_HEADER_BYTES && IsInterim(buf[..Mark(buf).end])
    ensures Streamed(buf, chunks, value, replace) == buf + Streamed([], chunks, value, replace)
  {
    assert buf[..|buf|] == buf && buf[|buf|..] == [];
  }

  /** Read byte by byte, a stream that straddles the limit passes unchanged. */
  lemma {:induction false} ByteByByte(buf: Bytes, tail: Bytes, value: Bytes, replace: bool)
    requires Straddles(buf + tail) && |buf| <= MAX_HEADER_BYTES + 1
    requires buf == [] || Mark(buf[..|buf| - 1]).NoHead?
    ensures Streamed(buf, Singles(tail), value, replace) == buf + tail
    decreases |tail|, |buf|
  {
    var m := Mark(buf);
    if m.Head? {
      StraddleHead(buf, tail);
      assert [] + tail == tail;
      ByteByByte([], tail, value, replace);
      PassesInterim(buf, Singles(tail), value, replace);
    } else if |buf| <= MAX_HEADER_BYTES {
      assert tail == [] ==> buf + tail == buf;
      if tail != [] {
        var more := buf + [tail[0]];
        assert more + tail[1..] == buf + tail && more[..|more| - 1] == buf;
        ByteByByte(more, tail[1..], value, replace);
        ReadsOne(buf, tail, value, replace);
      }
    }
  }

  /** Chunk independence, exactly: every chunking of `s` yields the one-shot edit if and only if `s` does not straddle
      the limit or the edit would change nothing. */
  lemma ChunkIndependence(s: Bytes, value: Bytes, replace: bool)
    ensures (forall chunks: seq<Bytes> | Concat(chunks) == s ::
        Streamed([], chunks, value, replace) == OneShot(s, value, replace))
      <==> (!Straddles(s) || OneShot(s, value, replace) == s)
  {
    forall chunks: seq<Bytes> | Concat(chunks) == s
      ensures Either([], chunks, value, replace) && [] + Concat(chunks) == s
    {
      StreamedEither([], chunks, value, replace);
    }
    if Straddles(s) {
      assert [] + s == s;
      ByteByByte([], s, value, replace);
      assert Concat(Singles(s)) == s;
    }
  }

  // ---- The connection ----

  const READ_BUFFER: nat := 4096

  class AltSvcConn {
    const up: Upstream
    const value: Bytes
    const replace: bool
    var pending: Bytes
    var rest: Bytes
    var done: bool

    ghost predicate Valid()
      reads this, up
    {
      && (forall k :: 0 <= k < |up.chunks| ==> up.chunks[k] != [])
      && (done || forall k :: 0 <= k < |up.chunks| ==> |up.chunks[k]| <= READ_BUFFER)
    }

    /** All bytes still to be delivered. */
    ghost function Due(): Bytes
      reads this, up
    {
      pending + if done then Concat(up.chunks) else Streamed(rest, up.chunks, value, replace)
    }

    constructor (up: Upstream, value: Bytes, replace: bool)
      requires forall k :: 0 <= k < |up.chunks| ==> 0 < |up.chunks[k]| <= READ_BUFFER
      ensures Valid() && this.up == up && this.value == value && this.replace == replace
      ensures Due() == Streamed([], up.chunks, value, replace)
    {
      this.up, this.value, this.replace := up, value, replace;
      pending, rest, done := [], [], false;
    }

    /** Collect the next head: afterwards something is pending, or the tunnel has ended. */
    method Collect() returns (eof: bool)
      requires Valid() && !done && pending == []
      modifies this, up
      ensures Valid() && Due() == old(Due())
      ensures eof ==> Due() == []
      ensures !eof ==> pending != []
    {
      var buf := rest;
      rest := [];
      while true
        invariant Valid() && !done && pending == [] && rest == []
        invariant Streamed(buf, up.chunks, value, replace) == old(Due())
        decreases |up.chunks|
      {
        var m := HeadEnd(buf);
        if m.Head? {
          if !m.crlf || m.end > MAX_HEADER_BYTES {
            done, pending := true, buf;
          } else if IsInterim(buf[..m.end]) {
            pending, rest := buf[..m.end + 4], buf[m.end + 4..];
          } else {
            done := true;
            pending := WithAltSvc(buf, m.end, value, replace);
            assert m.end < |buf|;
          }
          return false;
        }
        if |buf| > MAX_HEADER_BYTES {
          done, pending := true, buf;
          return false;
        }
        var c, end := up.Read(READ_BUFFER);
        if end {
          done, pending := true, buf;
          return buf == [];
        }
        buf := buf + c;
      }
    }

    /** One read of the client side, into a buffer of `room` bytes: what is returned and what is still due make up what
        was due before. */
    method Read(room: nat) returns (out: Bytes, eof: bool)
      requires Valid() && room > 0
      modifies this, up
      ensures Valid() && old(Due()) == out + Due()
      ensures eof <==> old(Due()) == []
      ensures |out| <= room && (!eof ==> out != [])
    {
      if pending == [] && !done {
        var end := Collect();
        if end { return [], true; }
      }
      if pending != [] {
        var n := if room < |pending| then room else |pending|;
        SplitMore(pending, n, if done then Concat(up.chunks) else Streamed(rest, up.chunks, value, replace));
        out, pending, eof := pending[..n], pending[n..], false;
        return;
      }
      out, eof := up.Read(room);
    }

    /** Reading to the end delivers what the stream promised, whatever the size of the client's buffer. */
    method ReadAll(room: nat) returns (all: Bytes)
      requires Valid() && room > 0
      modifies this, up
      ensures all == old(Due()) && Due() == []
    {
      all := [];
      while true
        invariant Valid() && all + Due() == old(Due())
        decreases |Due()|
      {
        var out, eof := Read(room);
        if eof { return; }
        all := all + out;
      }
    }
  }
}

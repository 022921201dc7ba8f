/** Inputs on which chunking matters: for each of the two size checks, one stream that fares differently depending on
    how its bytes arrive. */
module Witnesses {
  import opened Basics
  import opened Bytes
  import opened Http1
  import opened Reframe
  import opened AltSvc
  import opened AltSvcHeads
  import opened AltSvcMeaning
  import opened Ingress
  import opened HostAgreement

  function Padding(n: nat): (p: Bytes)
    ensures |p| == n && Clean(p)
  {
    seq(n, _ => 'a')
  }

  function PadField(n: nat): Field { ("X", Padding(n)) }

  lemma PadFieldIs(n: nat)
    ensures var l := FieldLine(PadField(n)); |l| == n + 3 && Clean(l) && l[0] == 'X' && !IsAltSvcField(l)
    ensures IsToken("X")
  {
    BeforeColonOf("X", " " + Padding(n));
    assert FieldLine(PadField(n)) == "X" + ":" + (" " + Padding(n));
    assert TrimSpace("X") == "X";
  }

  // ---- Alt-Svc ----

  /** A response whose head is exactly as long as heads may be. */
  function LongHead(): Bytes { "HTTP/1.1 200 OK" + Joined([FieldLine(PadField(65516))]) }

  lemma StatusIs200(status: Bytes)
    requires status == "HTTP/1.1" + (" " + ("200" + (" " + "OK")))
    ensures Clean(status) && StatusCode(status) == "200"
  {
    FirstLineOf(status, []);
    FirstField("HTTP/1.1", "200" + (" " + "OK"));
    FirstField("200", "OK");
  }

  lemma LongHeadIs(h: Bytes)
    requires h == LongHead()
    ensures |h| == MAX_HEADER_BYTES && Seamless(h) && IsFinal(h) && CountAltSvc(Lines(FieldSection(h))) == 0
  {
    var status, l := "HTTP/1.1 200 OK", FieldLine(PadField(65516));
    PadFieldIs(65516);
    assert status == "HTTP/1.1" + (" " + ("200" + (" " + "OK")));
    StatusIs200(status);
    JoinedLast([], l);
    assert [] + [l] == [l];
    SeamlessJoined(status, [l]);
    StatusOf(status, [l]);
    PartsOf(status, [l]);
    assert CountAltSvc([l]) == 0;
  }

  lemma {:induction false} StreamsSingly(buf: Bytes, x: Bytes, cs: seq<Bytes>, value: Bytes)
    requires |buf + x| <= MAX_HEADER_BYTES && Mark(buf + x).NoHead? && cs != []
    ensures Streamed(buf, Singles(x) + cs, value, false) == Streamed(buf + x, cs, value, false)
    decreases |x|
  {
    if x == [] {
      assert Singles(x) + cs == cs && buf + x == buf;
    } else {
      var b := buf + [x[0]];
      assert b + x[1..] == buf + x;
      assert (Singles(x) + cs)[0] == [x[0]] && (Singles(x) + cs)[1..] == Singles(x[1..]) + cs;
      if Mark(buf).Head? { MarkStable(buf, x); }
      StreamsSingly(b, x[1..], cs, value);
    }
  }

  /** The same response, its head read byte by byte: it is edited if its blank line arrives at once, and passes
      unedited if that arrives byte by byte too. */
  lemma ChunkingMatters(value: Bytes)
    ensures var h := LongHead();
      var s := h + "\r\n\r\n";
      && Concat(Singles(h) + ["\r\n\r\n"]) == Concat(Singles(s)) == s
      && Streamed([], Singles(h) + ["\r\n\r\n"], value, false) == OneShot(s, value, false) != s
      && Streamed([], Singles(s), value, false) == s
  {
    LongCase(LongHead(), value);
  }

  lemma LongCase(h: Bytes, value: Bytes)
    requires h == LongHead()
    ensures var s := h + "\r\n\r\n";
      && Concat(Singles(h) + ["\r\n\r\n"]) == Concat(Singles(s)) == s
      && Streamed([], Singles(h) + ["\r\n\r\n"], value, false) == OneShot(s, value, false) != s
      && Streamed([], Singles(s), value, false) == s
  {
    LongHeadIs(h);
    AtTheLimit(h, value);
  }

  /** So it is with every final head of that length that has no Alt-Svc field. */
  lemma AtTheLimit(h: Bytes, value: Bytes)
    requires |h| == MAX_HEADER_BYTES && Seamless(h) && IsFinal(h) && CountAltSvc(Lines(FieldSection(h))) == 0
    ensures var s := h + "\r\n\r\n";
      && Concat(Singles(h) + ["\r\n\r\n"]) == Concat(Singles(s)) == s
      && Streamed([], Singles(h) + ["\r\n\r\n"], value, false) == OneShot(s, value, false) != s
      && Streamed([], Singles(s), value, false) == s
  {
    var blank := "\r\n\r\n";
    var s := h + blank;
    ConcatSplit(Singles(h), [blank]);
    assert Concat([blank]) == blank + [] == blank;
    EditedAtTheLimit(h, value);
    StreamedAtTheLimit(h, value);
    assert [] + s == s;
    ByteByByte([], s, value, false);
  }

  lemma EditedAtTheLimit(h: Bytes, value: Bytes)
    requires |h| == MAX_HEADER_BYTES && Seamless(h) && IsFinal(h) && CountAltSvc(Lines(FieldSection(h))) == 0
    ensures var s := h + "\r\n\r\n";
      && Mark(s) == Head(|h|, true) && Straddles(s) && s[..|h|] == h && s[|h|..] == "\r\n\r\n"
      && OneShot(s, value, false) == EditedHead(h, value, false) + "\r\n\r\n" != s
  {
    var s := h + "\r\n\r\n";
    SeamlessMark(h, []);
    assert "\r\n\r\n" + [] == "\r\n\r\n";
    assert s[..|h|] == h && s[|h|..] == "\r\n\r\n";
    EditAppends(h, value);
    assert |EditedHead(h, value, false)| > |h|;
  }

  lemma StreamedAtTheLimit(h: Bytes, value: Bytes)
    requires |h| == MAX_HEADER_BYTES && Mark(h + "\r\n\r\n") == Head(|h|, true)
    ensures var s := h + "\r\n\r\n";
      Streamed([], Singles(h) + ["\r\n\r\n"], value, false) == Streamed(s, [], value, false)
    ensures var s := h + "\r\n\r\n"; IsFinal(h) ==>
      Streamed(s, [], value, false) == EditedHead(h, value, false) + "\r\n\r\n"
  {
    var blank := "\r\n\r\n";
    var s := h + blank;
    if Mark(h).Head? { MarkStable(h, blank); }
    assert [] + h == h;
    StreamsSingly([], h, [blank], value);
    assert [blank][1..] == [];
    assert s[..|h|] == h && s[|h|..] == blank;
    assert Concat([]) == [];
    assert EditedHead(h, value, false) + blank + [] == EditedHead(h, value, false) + blank;
  }

  // ---- Request heads ----

  const GET: Bytes := "GET / HTTP/1.1"

  /** A request head a little short of the limit. */
  function NearHead(): Bytes { GET + Joined(FieldLines([("Host", "a"), PadField(65472)])) }

  /** That head, its blank line and 1000 bytes of body. */
  function NearRequest(): Bytes { NearHead() + ("\r\n\r\n" + Padding(1000)) }

  lemma NearHeadIs(h: Bytes)
    requires h == NearHead()
    ensures |h| == 65500 && Seamless(h) && HostOf(h).Host?
  {
    var fs := [("Host", "a"), PadField(65472)];
    var ls := FieldLines(fs);
    PadFieldIs(65472);
    assert ValidValue(PadField(65472).1);
    assert fs == [("Host", "a")] + [PadField(65472)];
    HostValuesOf("a", [PadField(65472)]);
    LinesAreClean(fs);
    SeamlessJoined(GET, ls);
    SplitJoined(GET, ls);
    assert ([GET] + ls)[1..] == ls;
    NearLength(ls);
  }

  lemma NearLength(ls: seq<Bytes>)
    requires |ls| == 2 && |ls[0]| == 7 && |ls[1]| == 65475
    ensures |Joined(ls)| == 65486
  {
    JoinedLast([ls[0]], ls[1]);
    JoinedLast([], ls[0]);
    assert [] + [ls[0]] == [ls[0]] && [ls[0]] + [ls[1]] == ls;
  }

  /** Some chunking of the stream is accepted and some other refused as too large. */
  ghost predicate Depends(s: Bytes) {
    exists a, b | Readable(a) && Readable(b) && Concat(a) == Concat(b) == s ::
      HeadRead([], a).0.Got? && HeadRead([], b).0 == TooLarge
  }

  /** The same request is accepted if it is read byte by byte, and refused as too large if the read that completes
      its blank line also brings a good deal of the body. */
  lemma HeadChunkingMatters()
    ensures Depends(NearRequest())
  {
    var h := NearHead();
    NearHeadIs(h);
    NearTheLimit(h, Padding(1000), NearRequest());
  }

  /** So it is with every head that close to the limit, and enough of a body. */
  lemma NearTheLimit(h: Bytes, body: Bytes, s: Bytes)
    requires |h| == 65500 && Seamless(h) && HostOf(h).Host? && |body| == 1000 && s == h + ("\r\n\r\n" + body)
    ensures Depends(s)
  {
    BlankAfter(h, body);
    assert s[..|h|] == h;
    AcceptedSingly(s, |h|);
    var p := Min(|h| + 3, MAX_HEADER_BYTES);
    UnluckyIsTooLarge(s, |h|);
    UnluckyIsChunking(s, p);
  }

  /** Byte by byte, the byte after the first `n` on its own. */
  function OneByOne(s: Bytes, n: nat): seq<Bytes>
    requires n < |s|
  {
    Singles(s[..n]) + ([[s[n]]] + Singles(s[n + 1..]))
  }

  lemma OneByOneIs(s: Bytes, n: nat)
    requires n < |s|
    ensures Concat(OneByOne(s, n)) == s && Readable(OneByOne(s, n))
  {
    ConcatSplit(Singles(s[..n]), [[s[n]]] + Singles(s[n + 1..]));
    assert ([[s[n]]] + Singles(s[n + 1..]))[1..] == Singles(s[n + 1..]);
    assert s == s[..n] + ([s[n]] + s[n + 1..]);
  }

  lemma AcceptedSingly(s: Bytes, n: nat)
    requires BlankAt(s) == n && n + 4 <= |s| && n + 4 <= MAX_HEADER_BYTES && HostOf(s[..n]).Host?
    ensures var a := OneByOne(s, n + 3); Concat(a) == s && Readable(a) && HeadRead([], a).0.Got?
  {
    OneByOneIs(s, n + 3);
    var x, c := s[..n + 3], [s[n + 3]];
    NoBlankYet(s, n + 3);
    assert [] + x == x;
    ReadsSingly([], x, [c] + Singles(s[n + 4..]));
    LastByte(s, n, [c] + Singles(s[n + 4..]));
  }

  lemma LastByte(s: Bytes, n: nat, cs: seq<Bytes>)
    requires BlankAt(s) == n && n + 4 <= |s| && n + 4 <= MAX_HEADER_BYTES && HostOf(s[..n]).Host?
    requires cs != [] && cs[0] == [s[n + 3]]
    ensures HeadRead(s[..n + 3], cs).0.Got?
  {
    var b := s[..n + 4];
    assert s[..n + 3] + cs[0] == b && b + s[n + 4..] == s;
    BlankStable(b, s[n + 4..]);
    assert b[..n] == s[..n];
  }
}

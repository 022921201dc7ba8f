/** HTTP/3 requests re-framed as HTTP/1.1 for the tunnel: `http1Lines`, `framed` and `sendBody`.
    The theorem is that the reference reader of module `Http1` gets back every request of a kept
    stream, in order and whole. */
module Reframe {
  import opened Basics
  import opened Bytes
  import opened Http1
  import opened Options

  /** A request as the HTTP/3 server hands it over: `header` in sorted key order, `length` the Content-Length or
      negative when unknown. */
  datatype Request = Request(verb: Bytes, target: Bytes, host: Bytes, header: Header, length: int)

  /** A header or trailer map, in sorted key order. */
  type Header = seq<(Bytes, seq<Bytes>)>

  // ---- Validity, as the edge checks it ----

  predicate IsHostChar(c: char) {
    || IsDigit(c) || IsAlpha(c)
    || c == '!' || c == '$' || c == '%' || c == '&' || c == '(' || c == ')' || c == '*' || c == '+'
    || c == ',' || c == '-' || c == '.' || c == ':' || c == ';' || c == '=' || c == '\'' || c == '['
    || c == ']' || c == '_' || c == '~'
  }
  predicate ValidHost(h: Bytes) { h != [] && forall k :: 0 <= k < |h| ==> IsHostChar(h[k]) }
  predicate ValidTarget(t: Bytes) { t != [] && forall k :: 0 <= k < |t| ==> !IsTargetEnd(t[k]) }
  predicate IsTargetEnd(c: char) { c == ' ' || c == '\r' || c == '\n' || c == '\t' }
  predicate ValidValue(v: Bytes) { forall k :: 0 <= k < |v| ==> (' ' <= v[k] || v[k] == '\t') && v[k] != 127 as char }

  function Upper(c: char): char { if 'a' <= c <= 'z' then (c as int - 32) as char else c }

  function CanonicalChar(k: Bytes, i: nat): char
    requires i < |k|
  {
    if i == 0 || k[i - 1] == '-' then Upper(k[i]) else Lower(k[i])
  }

  /** `http.CanonicalHeaderKey`. */
  function Canonical(k: Bytes): (r: Bytes)
    ensures |r| == |k|
  {
    if IsToken(k) then Cased(k, true) else k
  }

  /** Upper case at the start of each word, lower case elsewhere. */
  function Cased(k: Bytes, start: bool): (r: Bytes)
    ensures |r| == |k|
  {
    if k == [] then [] else [if start then Upper(k[0]) else Lower(k[0])] + Cased(k[1..], k[0] == '-')
  }

  lemma {:induction false} CasedAt(k: Bytes, start: bool, i: nat)
    requires i < |k|
    ensures Cased(k, start)[i] == if (if i == 0 then start else k[i - 1] == '-') then Upper(k[i]) else Lower(k[i])
  {
    if i > 0 { CasedAt(k[1..], k[0] == '-', i - 1); }
  }

  const HOP: seq<Bytes> := [
    "Connection", "Keep-Alive", "Proxy-Connection", "Transfer-Encoding", "Upgrade", "Te", "Trailer"
  ]

  predicate Skipped(ck: Bytes) { ck == "Host" || ck == "Content-Length" || ck in HOP }

  function JoinWith(vs: seq<Bytes>, sep: Bytes): Bytes {
    if vs == [] then [] else if |vs| == 1 then vs[0] else vs[0] + sep + JoinWith(vs[1..], sep)
  }

  /** The values of one header: several Cookie values make one line. */
  function ValuesSent(ck: Bytes, vs: seq<Bytes>): seq<Bytes> {
    if ck == "Cookie" && |vs| > 1 then [JoinWith(vs, "; ")] else vs
  }

  predicate ValidValues(vs: seq<Bytes>) { forall i :: 0 <= i < |vs| ==> ValidValue(vs[i]) }

  function Pairs(ck: Bytes, vs: seq<Bytes>): seq<Field> {
    if vs == [] then [] else [(ck, vs[0])] + Pairs(ck, vs[1..])
  }

  /** A header that does not make the request refused: it does not cross, or its name and values are valid. */
  predicate HeaderOk(h: (Bytes, seq<Bytes>)) {
    Skipped(Canonical(h.0)) || (IsToken(h.0) && ValidValues(ValuesSent(Canonical(h.0), h.1)))
  }

  predicate AllOk(header: Header) { forall i :: 0 <= i < |header| ==> HeaderOk(header[i]) }

  /** The end-to-end fields. */
  function EndToEnd(header: Header): seq<Field> {
    if header == [] then [] else Crossing(header[0]) + EndToEnd(header[1..])
  }

  function Crossing(h: (Bytes, seq<Bytes>)): seq<Field> {
    if Skipped(Canonical(h.0)) then [] else Pairs(Canonical(h.0), ValuesSent(Canonical(h.0), h.1))
  }

  // ---- Lines ----

  function FieldLine(f: Field): Bytes { f.0 + ": " + f.1 }

  function FieldLines(fs: seq<Field>): seq<Bytes> {
    if fs == [] then [] else [FieldLine(fs[0])] + FieldLines(fs[1..])
  }

  /** Lines as written: each with its CRLF. */
  function Written(ls: seq<Bytes>): Bytes { if ls == [] then [] else ls[0] + (CRLF + Written(ls[1..])) }

  function RequestLine(r: Request): Bytes { r.verb + " " + r.target + " HTTP/1.1" }

  predicate Acceptable(r: Request) {
    ValidHost(r.host) && IsToken(r.verb) && ValidTarget(r.target) && AllOk(r.header)
  }

  /** `http1Lines`. */
  function HeadFields(r: Request): seq<Field>
    requires Acceptable(r)
  {
    [("Host", r.host)] + EndToEnd(r.header)
  }

  // ---- Body framing ----

  predicate MethodHasBody(m: Bytes) { m == "POST" || m == "PUT" || m == "PATCH" }

  const CHUNKED_FIELD: Field := ("Transfer-Encoding", "chunked")

  /** The names that may not be trailers, by their canonical form; nor may those that begin with "If-". */
  const NOT_TRAILERS: seq<Bytes> := [
    "Host", "Content-Length", "Transfer-Encoding", "Authorization", "Cache-Control", "Connection", "Content-Encoding",
    "Content-Range", "Content-Type", "Expect", "Keep-Alive", "Max-Forwards", "Pragma", "Proxy-Authenticate",
    "Proxy-Authorization", "Proxy-Connection", "Range", "Realm", "Te", "Trailer", "Www-Authenticate"
  ]

  predicate MayTrail(k: Bytes) { IsToken(k) && !("If-" <= Canonical(k)) && Canonical(k) !in NOT_TRAILERS }

  /** `trailerNames`: the trailers that may cross. */
  function TrailerNames(t: Header): (ns: seq<Bytes>)
    ensures ValidNames(ns)
  {
    if t == [] then [] else (if MayTrail(t[0].0) then [t[0].0] else []) + TrailerNames(t[1..])
  }

  function ValidOnly(vs: seq<Bytes>): (r: seq<Bytes>)
    ensures forall v <- r :: ValidValue(v)
  {
    if vs == [] then [] else (if ValidValue(vs[0]) then [vs[0]] else []) + ValidOnly(vs[1..])
  }

  /** The trailer fields `sendBody` writes: of those names, the valid values. */
  function TrailerFields(t: Header): seq<Field> {
    if t == [] then [] else (if MayTrail(t[0].0) then Pairs(t[0].0, ValidOnly(t[0].1)) else []) + TrailerFields(t[1..])
  }

  /** The fields `framed` adds; `announced` are the trailers known before the body. */
  function FramingFields(r: Request, announced: seq<Bytes>): seq<Field> {
    if announced != [] then [("Trailer", JoinWith(announced, ", ")), CHUNKED_FIELD]
    else if r.length > 0 then [("Content-Length", Digits(r.length, false))]
    else if r.length < 0 then [CHUNKED_FIELD]
    else if MethodHasBody(r.verb) then [("Content-Length", Digits(0, false))]
    else []
  }

  function Framed(r: Request, announced: seq<Bytes>): Bytes
    requires Acceptable(r)
  {
    Written([RequestLine(r)] + FieldLines(HeadFields(r) + FramingFields(r, announced))) + CRLF
  }

  predicate IsChunked(r: Request, announced: seq<Bytes>) { announced != [] || r.length < 0 }

  function Chunk(data: Bytes): Bytes { Digits(|data|, true) + (CRLF + (data + CRLF)) }

  /** One chunk for each non-empty read. */
  function Chunks(pieces: seq<Bytes>): Bytes {
    if pieces == [] then [] else if pieces[0] == [] then Chunks(pieces[1..]) else Chunk(pieces[0]) + Chunks(pieces[1..])
  }

  /** What `sendBody` writes when it succeeds: `pieces` are the reads of the body, `trailers` what is known after it. */
  function BodySent(r: Request, announced: seq<Bytes>, pieces: seq<Bytes>, trailers: seq<Field>): Bytes
    requires !IsChunked(r, announced) ==> r.length <= |Concat(pieces)|
  {
    if IsChunked(r, announced) then Chunks(pieces) + ("0" + (CRLF + (Written(FieldLines(trailers)) + CRLF)))
    else Concat(pieces)[..r.length]
  }

  /** The body a reader is to get. */
  function BodyMeant(r: Request, announced: seq<Bytes>, pieces: seq<Bytes>): Bytes
    requires !IsChunked(r, announced) ==> r.length <= |Concat(pieces)|
  {
    if IsChunked(r, announced) then Concat(pieces) else Concat(pieces)[..r.length]
  }

  predicate ValidNames(ns: seq<Bytes>) { forall k :: 0 <= k < |ns| ==> IsToken(ns[k]) }

  function Trimmed(fs: seq<Field>): seq<Field> {
    if fs == [] then [] else [(fs[0].0, TrimOWS(fs[0].1))] + Trimmed(fs[1..])
  }

  // ---- Lines read back ----

  predicate ValidField(f: Field) { IsToken(f.0) && ValidValue(f.1) }
  predicate ValidFields(fs: seq<Field>) { forall k :: 0 <= k < |fs| ==> ValidField(fs[k]) }

  lemma CutWritten(l: Bytes, y: Bytes)
    requires Clean(l)
    ensures CutLine(l + (CRLF + y)) == Some((l, y))
  {
    CleanIndex(l, y);
    var s := l + (CRLF + y);
    assert s[..|l|] == l && s[|l| + 2..] == y;
  }

  lemma {:induction false} IndexColonOf(name: Bytes, after: Bytes)
    requires ':' !in name
    ensures IndexColon(name + (":" + after)) == |name|
  {
    if name != [] {
      IndexColonOf(name[1..], after);
      assert (name + (":" + after))[1..] == name[1..] + (":" + after);
    } else {
      assert (name + (":" + after))[0] == ':';
    }
  }

  lemma TokenIsClean(n: Bytes)
    requires IsToken(n)
    ensures Clean(n) && ':' !in n && ' ' !in n
  {}

  lemma FieldLineClean(f: Field)
    requires ValidField(f)
    ensures FieldLine(f) != [] && Clean(FieldLine(f))
  {
    TokenIsClean(f.0);
    assert Clean(f.1);
  }

  lemma ParseFieldLine(f: Field)
    requires ValidField(f)
    ensures ParseField(FieldLine(f)) == Some((f.0, TrimOWS(f.1)))
  {
    TokenIsClean(f.0);
    var l := FieldLine(f);
    assert l == f.0 + (":" + (" " + f.1));
    IndexColonOf(f.0, " " + f.1);
    assert l[..|f.0|] == f.0 && l[|f.0| + 1..] == " " + f.1;
    assert (" " + f.1)[1..] == f.1;
  }

  lemma {:induction false} ParseWritten(fs: seq<Field>, after: Bytes)
    requires ValidFields(fs)
    ensures ParseFields(Written(FieldLines(fs)) + (CRLF + after)) == Some((Trimmed(fs), after))
  {
    if fs == [] {
      assert Written(FieldLines(fs)) + (CRLF + after) == [] + (CRLF + after);
      CutWritten([], after);
    } else {
      var l, more := FieldLine(fs[0]), Written(FieldLines(fs[1..])) + (CRLF + after);
      assert FieldLines(fs)[1..] == FieldLines(fs[1..]);
      assert Written(FieldLines(fs)) + (CRLF + after) == l + (CRLF + more);
      FieldLineClean(fs[0]);
      CutWritten(l, more);
      ParseFieldLine(fs[0]);
      ParseWritten(fs[1..], after);
    }
  }

  // ---- Chunks read back ----

  lemma NumberClean(n: nat, hex: bool)
    ensures Clean(Digits(n, hex)) && ValidValue(Digits(n, hex)) && TrimOWS(Digits(n, hex)) == Digits(n, hex)
  {}

  lemma ChunkBack(data: Bytes, after: Bytes)
    requires data != []
    ensures DecodeChunks(Chunk(data) + after) ==
      match DecodeChunks(after) { case None => None case Some((body, ts, end)) => Some((data + body, ts, end)) }
  {
    var size, rest := Digits(|data|, true), data + CRLF + after;
    assert Chunk(data) + after == size + (CRLF + rest);
    NumberClean(|data|, true);
    CutWritten(size, rest);
    NumberOfDigits(|data|, true);
    var n := |data|;
    assert rest[..n] == data && rest[n..n + 2] == CRLF && rest[n + 2..] == after;
  }

  lemma LastChunkBack(ts: seq<Field>, after: Bytes)
    requires ValidFields(ts)
    ensures DecodeChunks("0" + (CRLF + (Written(FieldLines(ts)) + CRLF)) + after) == Some(([], Trimmed(ts), after))
  {
    var rest := Written(FieldLines(ts)) + (CRLF + after);
    assert "0" + (CRLF + (Written(FieldLines(ts)) + CRLF)) + after == "0" + (CRLF + rest);
    CutWritten("0", rest);
    assert Number("0", true) == Some(0);
    ParseWritten(ts, after);
  }

  lemma {:induction false} ChunksBack(pieces: seq<Bytes>, ts: seq<Field>, last: Bytes, after: Bytes)
    requires DecodeChunks(last) == Some(([], ts, after))
    ensures DecodeChunks(Chunks(pieces) + last) == Some((Concat(pieces), ts, after))
  {
    if pieces == [] {
      assert Chunks(pieces) + last == last;
    } else {
      ChunksBack(pieces[1..], ts, last, after);
      if pieces[0] == [] {
        assert [] + Concat(pieces[1..]) == Concat(pieces[1..]);
      } else {
        Assoc(Chunk(pieces[0]), Chunks(pieces[1..]), last);
        ChunkBack(pieces[0], Chunks(pieces[1..]) + last);
      }
    }
  }

  // ---- Only one framing ----

  /** Names that differ only in case have one canonical form. */
  lemma CanonicalFold(a: Bytes, b: Bytes)
    requires EqualFold(a, b) && IsToken(a) && IsToken(b)
    ensures Canonical(a) == Canonical(b)
  {
    forall i: nat | i < |a| ensures Canonical(a)[i] == Canonical(b)[i] {
      CasedAt(a, true, i);
      CasedAt(b, true, i);
      assert Lower(a[i]) == Lower(b[i]);
      if i > 0 { assert Lower(a[i - 1]) == Lower(b[i - 1]); }
    }
  }

  lemma FoldTrans(a: Bytes, b: Bytes, c: Bytes)
    requires EqualFold(a, b) && EqualFold(a, c)
    ensures EqualFold(b, c)
  {}

  lemma CanonicalFixed(k: Bytes)
    requires IsToken(k) && forall i: nat :: i < |k| ==> CanonicalChar(k, i) == k[i]
    ensures Canonical(k) == k
  {
    forall i: nat | i < |k| ensures Canonical(k)[i] == k[i] {
      CasedAt(k, true, i);
      assert CanonicalChar(k, i) == k[i];
    }
  }

  /** No trailer frames the message or routes it. */
  lemma ReservedMayNotTrail(k: Bytes)
    requires IsToken(k) && Reserved(k)
    ensures !MayTrail(k)
  {
    TokenNames();
    if EqualFold(k, "Transfer-Encoding") {
      CanonicalFold(k, "Transfer-Encoding");
      TransferEncodingFixed();
      assert NOT_TRAILERS[2] == "Transfer-Encoding";
    } else if EqualFold(k, "Content-Length") {
      CanonicalFold(k, "Content-Length");
      ContentLengthFixed();
      assert NOT_TRAILERS[1] == "Content-Length";
    } else {
      CanonicalFold(k, "Host");
      HostFixed();
      assert NOT_TRAILERS[0] == "Host";
    }
  }

  lemma {:induction false} TrailersPlain(t: Header)
    ensures AllPlain(TrailerFields(t)) && ValidFields(TrailerFields(t))
  {
    if t != [] {
      TrailersPlain(t[1..]);
      if MayTrail(t[0].0) {
        if Reserved(t[0].0) { ReservedMayNotTrail(t[0].0); }
        PairsPlain(t[0].0, ValidOnly(t[0].1));
      }
    }
  }

  /** The names that frame a message or route it. */
  predicate Reserved(name: Bytes) {
    EqualFold(name, "Transfer-Encoding") || EqualFold(name, "Content-Length") || EqualFold(name, "Host")
  }

  lemma TokenNames()
    ensures IsToken("Transfer-Encoding") && IsToken("Content-Length") && IsToken("Host") && IsToken("Trailer")
  {}

  lemma TransferEncodingFixed()
    ensures Canonical("Transfer-Encoding") == "Transfer-Encoding" && "Transfer-Encoding" in HOP
  {
    TokenNames();
    assert HOP[3] == "Transfer-Encoding";
    CanonicalFixed("Transfer-Encoding");
  }

  lemma ContentLengthFixed()
    ensures Canonical("Content-Length") == "Content-Length"
  {
    TokenNames();
    CanonicalFixed("Content-Length");
  }

  lemma HostFixed()
    ensures Canonical("Host") == "Host"
  {
    TokenNames();
    CanonicalFixed("Host");
  }

  lemma CanonicalFolds(k: Bytes)
    ensures EqualFold(Canonical(k), k)
  {
    if IsToken(k) {
      forall i: nat | i < |k| ensures Lower(Canonical(k)[i]) == Lower(k[i]) { CasedAt(k, true, i); }
    }
  }

  lemma SameCanonical(k: Bytes, name: Bytes)
    requires IsToken(k) && IsToken(name) && EqualFold(Canonical(k), name)
    ensures Canonical(k) == Canonical(name)
  {
    CanonicalFolds(k);
    FoldTrans(Canonical(k), k, name);
    CanonicalFold(k, name);
  }

  lemma ReservedIsSkipped(k: Bytes)
    requires IsToken(k) && Reserved(Canonical(k))
    ensures Skipped(Canonical(k))
  {
    TokenNames();
    if EqualFold(Canonical(k), "Transfer-Encoding") {
      SameCanonical(k, "Transfer-Encoding");
      TransferEncodingFixed();
    } else if EqualFold(Canonical(k), "Content-Length") {
      SameCanonical(k, "Content-Length");
      ContentLengthFixed();
    } else {
      SameCanonical(k, "Host");
      HostFixed();
    }
  }

  predicate Plain(f: Field) { ValidField(f) && !Reserved(f.0) }
  predicate AllPlain(fs: seq<Field>) { forall k :: 0 <= k < |fs| ==> Plain(fs[k]) }

  lemma CanonicalToken(k: Bytes)
    requires IsToken(k)
    ensures IsToken(Canonical(k))
  {
    forall i: nat | i < |k| ensures IsTokenChar(Canonical(k)[i]) {
      CasedAt(k, true, i);
      assert IsTokenChar(k[i]);
    }
  }

  lemma {:induction false} PairsPlain(ck: Bytes, vs: seq<Bytes>)
    requires IsToken(ck) && !Reserved(ck) && forall i :: 0 <= i < |vs| ==> ValidValue(vs[i])
    ensures AllPlain(Pairs(ck, vs))
  {
    if vs != [] { PairsPlain(ck, vs[1..]); }
  }

  /** The end-to-end fields are well-formed, and none of them frames the message or names a host. */
  lemma {:induction false} EndToEndPlain(header: Header)
    requires AllOk(header)
    ensures AllPlain(EndToEnd(header))
  {
    if header != [] {
      EndToEndPlain(header[1..]);
      assert HeaderOk(header[0]);
      var (k, vs) := header[0];
      var ck := Canonical(k);
      if !Skipped(ck) {
        CanonicalToken(k);
        if Reserved(ck) { ReservedIsSkipped(k); }
        PairsPlain(ck, ValuesSent(ck, vs));
      }
    }
  }

  lemma {:induction false} ValuedAppend(a: seq<Field>, b: seq<Field>, name: Bytes)
    ensures Valued(a + b, name) == Valued(a, name) + Valued(b, name)
  {
    if a == [] {
      assert a + b == b;
    } else {
      ValuedAppend(a[1..], b, name);
      assert (a + b)[1..] == a[1..] + b;
      Assoc(if Named(a[0], name) then [a[0].1] else [], Valued(a[1..], name), Valued(b, name));
    }
  }

  lemma {:induction false} TrimmedAppend(a: seq<Field>, b: seq<Field>)
    ensures Trimmed(a + b) == Trimmed(a) + Trimmed(b)
  {
    if a == [] {
      assert a + b == b;
    } else {
      TrimmedAppend(a[1..], b);
      assert (a + b)[1..] == a[1..] + b;
    }
  }

  lemma {:induction false} PlainNotValued(fs: seq<Field>, name: Bytes)
    requires forall k :: 0 <= k < |fs| ==> !EqualFold(fs[k].0, name)
    ensures Valued(Trimmed(fs), name) == []
  {
    if fs != [] { PlainNotValued(fs[1..], name); }
  }

  function Framing(r: Request, announced: seq<Bytes>): seq<Field> { Trimmed(FramingFields(r, announced)) }

  lemma OddLengths()
    ensures |"Transfer-Encoding"| == 17 && |"Content-Length"| == 14 && |"Host"| == 4 && |"Trailer"| == 7
  {}

  lemma ValuedShort(f: Field, g: Field, name: Bytes)
    ensures Trimmed([f]) == [(f.0, TrimOWS(f.1))]
    ensures Trimmed([f, g]) == [(f.0, TrimOWS(f.1)), (g.0, TrimOWS(g.1))]
    ensures Valued([f], name) == if Named(f, name) then [f.1] else []
    ensures Valued([f, g], name) == (if Named(f, name) then [f.1] else []) + (if Named(g, name) then [g.1] else [])
  {
    assert [f][1..] == [] && [f, g][1..] == [g] && [g][1..] == [];
    assert Trimmed([g]) == [(g.0, TrimOWS(g.1))];
    assert Valued([g], name) == if Named(g, name) then [g.1] else [];
  }

  /** A request has at most one framing: chunked, or one length. */
  lemma OneFraming(r: Request, announced: seq<Bytes>)
    ensures Valued(Framing(r, announced), "Transfer-Encoding") == if IsChunked(r, announced) then ["chunked"] else []
    ensures Valued(Framing(r, announced), "Content-Length") ==
      if IsChunked(r, announced) then []
      else if r.length > 0 || MethodHasBody(r.verb) then [Digits(r.length, false)] else []
  {
    OddLengths();
    var fs, framing := FramingFields(r, announced), Framing(r, announced);
    assert TrimOWS("chunked") == "chunked";
    if r.length >= 0 { NumberClean(r.length, false); }
    if |fs| == 1 {
      ValuedShort(fs[0], fs[0], "Transfer-Encoding");
      assert fs == [fs[0]];
      ValuedShort(framing[0], framing[0], "Transfer-Encoding");
      ValuedShort(framing[0], framing[0], "Content-Length");
    } else if |fs| == 2 {
      ValuedShort(fs[0], fs[1], "Transfer-Encoding");
      assert fs == [fs[0], fs[1]];
      ValuedShort(framing[0], framing[1], "Transfer-Encoding");
      ValuedShort(framing[0], framing[1], "Content-Length");
    }
  }

  lemma HeadHasNoFraming(r: Request, name: Bytes)
    requires Acceptable(r) && (name == "Transfer-Encoding" || name == "Content-Length")
    ensures Valued(Trimmed(HeadFields(r)), name) == []
  {
    OddLengths();
    EndToEndPlain(r.header);
    PlainNotValued(HeadFields(r), name);
  }

  // ---- The request line ----

  lemma {:induction false} IndexSpaceOf(w: Bytes, after: Bytes)
    requires ' ' !in w
    ensures IndexSpace(w + (" " + after)) == |w|
  {
    if w != [] {
      IndexSpaceOf(w[1..], after);
      assert (w + (" " + after))[1..] == w[1..] + (" " + after);
    } else {
      assert (w + (" " + after))[0] == ' ';
    }
  }

  lemma CutSpace(w: Bytes, after: Bytes)
    requires ' ' !in w
    ensures var s := w + (" " + after);
      IndexSpace(s) == |w| && s[..|w|] == w && s[|w|..] == " " + after && s[|w| + 1..] == after
  {
    IndexSpaceOf(w, after);
  }

  lemma RequestLineParts(r: Request)
    requires IsToken(r.verb) && ValidTarget(r.target)
    ensures RequestLine(r) == r.verb + (" " + (r.target + (" " + "HTTP/1.1"))) && " " + "HTTP/1.1" == " HTTP/1.1"
    ensures Clean(RequestLine(r)) && ' ' !in r.verb && ' ' !in r.target
  {
    TokenIsClean(r.verb);
    assert ' ' !in r.target && '\n' !in r.target;
  }

  lemma RequestLineBack(r: Request)
    requires IsToken(r.verb) && ValidTarget(r.target)
    ensures ParseRequestLine(RequestLine(r)) == Some((r.verb, r.target)) && Clean(RequestLine(r))
  {
    RequestLineParts(r);
    var l, tail := RequestLine(r), r.target + (" " + "HTTP/1.1");
    CutSpace(r.verb, tail);
    CutSpace(r.target, "HTTP/1.1");
    assert l[|r.verb| + 1 + |r.target|..] == tail[|r.target|..];
  }

  // ---- Whole requests ----

  /** A request, what its body turned out to be, and `r.Trailer` before the body and after it. */
  datatype Sent = Sent(req: Request, early: Header, pieces: seq<Bytes>, late: Header)
  {
    function Announced(): seq<Bytes> { TrailerNames(early) }
    function Trailers(): seq<Field> { TrailerFields(late) }
  }

  predicate Sendable(x: Sent) {
    && Acceptable(x.req)
    && (!IsChunked(x.req, x.Announced()) ==> x.req.length <= |Concat(x.pieces)|)
  }

  function Encode(x: Sent): Bytes
    requires Sendable(x)
  {
    Framed(x.req, x.Announced()) + BodySent(x.req, x.Announced(), x.pieces, x.Trailers())
  }

  /** What the service is to understand. */
  function Meaning(x: Sent): Message
    requires Sendable(x)
  {
    Message(x.req.verb, x.req.target, Trimmed(HeadFields(x.req)) + Framing(x.req, x.Announced()),
            BodyMeant(x.req, x.Announced(), x.pieces),
            if IsChunked(x.req, x.Announced()) then Trimmed(x.Trailers()) else [])
  }

  lemma {:induction false} JoinedNames(ns: seq<Bytes>)
    requires ValidNames(ns)
    ensures ValidValue(JoinWith(ns, ", "))
  {
    if |ns| > 1 { JoinedNames(ns[1..]); }
  }

  lemma HostIsValue(h: Bytes)
    requires ValidHost(h)
    ensures ValidValue(h)
  {}

  lemma FramingValid(r: Request, announced: seq<Bytes>)
    requires ValidNames(announced)
    ensures ValidFields(FramingFields(r, announced))
  {
    JoinedNames(announced);
    TokenNames();
    if r.length >= 0 { NumberClean(r.length, false); }
  }

  lemma HeadValid(r: Request)
    requires Acceptable(r)
    ensures ValidFields(HeadFields(r))
  {
    EndToEndPlain(r.header);
    HostIsValue(r.host);
    TokenNames();
  }

  lemma AllFieldsValid(x: Sent)
    requires Sendable(x)
    ensures ValidFields(HeadFields(x.req) + FramingFields(x.req, x.Announced()))
  {
    HeadValid(x.req);
    FramingValid(x.req, x.Announced());
  }

  lemma LinesNested(l: Bytes, ws: Bytes, after: Bytes)
    ensures (l + (CRLF + ws) + CRLF) + after == l + (CRLF + (ws + (CRLF + after)))
  {}

  lemma FramedIs(r: Request, announced: seq<Bytes>)
    requires Acceptable(r)
    ensures var fs := FieldLines(HeadFields(r) + FramingFields(r, announced));
      Framed(r, announced) == RequestLine(r) + (CRLF + Written(fs)) + CRLF
  {
    var fs := FieldLines(HeadFields(r) + FramingFields(r, announced));
    assert ([RequestLine(r)] + fs)[1..] == fs;
  }

  lemma HeadBack(x: Sent, after: Bytes)
    requires Sendable(x)
    ensures var fs := HeadFields(x.req) + FramingFields(x.req, x.Announced());
      var tail := Written(FieldLines(fs)) + (CRLF + after);
      && CutLine(Framed(x.req, x.Announced()) + after) == Some((RequestLine(x.req), tail))
      && ParseFields(tail) == Some((Trimmed(HeadFields(x.req)) + Framing(x.req, x.Announced()), after))
  {
    var a, b := HeadFields(x.req), FramingFields(x.req, x.Announced());
    var l, ws := RequestLine(x.req), Written(FieldLines(a + b));
    AllFieldsValid(x);
    RequestLineBack(x.req);
    FramedIs(x.req, x.Announced());
    LinesNested(l, ws, after);
    CutWritten(l, ws + (CRLF + after));
    ParseWritten(a + b, after);
    TrimmedAppend(a, b);
  }

  lemma FramingSeen(x: Sent, name: Bytes)
    requires Sendable(x) && (name == "Transfer-Encoding" || name == "Content-Length")
    ensures var framing := Framing(x.req, x.Announced());
      Valued(Trimmed(HeadFields(x.req)) + framing, name) == Valued(framing, name)
  {
    HeadHasNoFraming(x.req, name);
    ValuedAppend(Trimmed(HeadFields(x.req)), Framing(x.req, x.Announced()), name);
  }

  lemma ChunkedBack(x: Sent, after: Bytes)
    requires Sendable(x) && IsChunked(x.req, x.Announced())
    ensures DecodeChunks(BodySent(x.req, x.Announced(), x.pieces, x.Trailers()) + after)
      == Some((Concat(x.pieces), Trimmed(x.Trailers()), after))
  {
    var last := "0" + (CRLF + (Written(FieldLines(x.Trailers())) + CRLF));
    TrailersPlain(x.late);
    LastChunkBack(x.Trailers(), after);
    ChunksBack(x.pieces, Trimmed(x.Trailers()), last + after, after);
    Assoc(Chunks(x.pieces), last, after);
  }

  lemma CutBack(a: Bytes, b: Bytes)
    ensures (a + b)[..|a|] == a && (a + b)[|a|..] == b
  {}

  lemma BodyBack(x: Sent, after: Bytes)
    requires Sendable(x)
    ensures DecodeBody(Meaning(x).fields, BodySent(x.req, x.Announced(), x.pieces, x.Trailers()) + after)
      == Some((Meaning(x).body, Meaning(x).trailers, after))
  {
    FramingSeen(x, "Transfer-Encoding");
    FramingSeen(x, "Content-Length");
    OneFraming(x.req, x.Announced());
    if IsChunked(x.req, x.Announced()) {
      ChunkedBack(x, after);
    } else {
      var n, body := x.req.length, BodySent(x.req, x.Announced(), x.pieces, x.Trailers());
      NumberOfDigits(n, false);
      CutBack(body, after);
    }
  }

  /** Re-framing loses nothing: whatever follows on the stream, the service reads back the request line, the end-to-end
      fields (up to optional whitespace), the body and the trailers, and stops exactly where the request ends. */
  lemma RoundTrip(x: Sent, after: Bytes)
    requires Sendable(x)
    ensures Decode(Encode(x) + after) == Some((Meaning(x), after))
  {
    var body := BodySent(x.req, x.Announced(), x.pieces, x.Trailers());
    Assoc(Framed(x.req, x.Announced()), body, after);
    HeadBack(x, body + after);
    RequestLineBack(x.req);
    BodyBack(x, after);
  }

  /** What a kept stream has carried. */
  function EncodeAll(xs: seq<Sent>): Bytes
    requires forall k :: 0 <= k < |xs| ==> Sendable(xs[k])
  {
    if xs == [] then [] else Encode(xs[0]) + EncodeAll(xs[1..])
  }

  function Meanings(xs: seq<Sent>): seq<Message>
    requires forall k :: 0 <= k < |xs| ==> Sendable(xs[k])
  {
    if xs == [] then [] else [Meaning(xs[0])] + Meanings(xs[1..])
  }

  /** Any sequence of requests sent on one kept stream is read back as that sequence. */
  lemma {:induction false} StreamRoundTrip(xs: seq<Sent>)
    requires forall k :: 0 <= k < |xs| ==> Sendable(xs[k])
    ensures DecodeAll(EncodeAll(xs)) == Some(Meanings(xs))
  {
    if xs != [] {
      RoundTrip(xs[0], EncodeAll(xs[1..]));
      StreamRoundTrip(xs[1..]);
      assert EncodeAll(xs) != [];
    }
  }

  // ---- The code that writes it ----

  lemma {:induction false} WrittenLast(ls: seq<Bytes>, l: Bytes)
    ensures Written(ls + [l]) == Written(ls) + l + CRLF
  {
    if ls == [] {
      assert Written([l]) == l + (CRLF + Written([]));
    } else {
      WrittenLast(ls[1..], l);
      assert (ls + [l])[1..] == ls[1..] + [l];
    }
  }

  lemma {:induction false} FieldLinesLast(fs: seq<Field>, f: Field)
    ensures FieldLines(fs + [f]) == FieldLines(fs) + [FieldLine(f)]
  {
    if fs != [] {
      FieldLinesLast(fs[1..], f);
      assert (fs + [f])[1..] == fs[1..] + [f];
    }
  }

  /** Writing one more field line. */
  lemma WriteField(first: Bytes, fs: seq<Field>, f: Field)
    ensures Written([first] + FieldLines(fs + [f])) == Written([first] + FieldLines(fs)) + FieldLine(f) + CRLF
  {
    FieldLinesLast(fs, f);
    assert [first] + FieldLines(fs + [f]) == ([first] + FieldLines(fs)) + [FieldLine(f)];
    WrittenLast([first] + FieldLines(fs), FieldLine(f));
  }

  /** The inner loop of `http1Lines`: the lines of one header, unless a value is invalid. */
  method WriteValues(first: Bytes, ghost fs: seq<Field>, out0: Bytes, ck: Bytes, vs: seq<Bytes>)
    returns (ok: bool, out: Bytes)
    requires out0 == Written([first] + FieldLines(fs))
    ensures ok == forall i :: 0 <= i < |vs| ==> ValidValue(vs[i])
    ensures ok ==> out == Written([first] + FieldLines(fs + Pairs(ck, vs)))
  {
    out := out0;
    ghost var done := fs;
    for i := 0 to |vs|
      invariant forall k :: 0 <= k < i ==> ValidValue(vs[k])
      invariant out == Written([first] + FieldLines(done))
      invariant done + Pairs(ck, vs[i..]) == fs + Pairs(ck, vs)
    {
      if !ValidValue(vs[i]) { return false, []; }
      WriteField(first, done, (ck, vs[i]));
      assert vs[i..][1..] == vs[i + 1..];
      assert done + ([(ck, vs[i])] + Pairs(ck, vs[i + 1..])) == (done + [(ck, vs[i])]) + Pairs(ck, vs[i + 1..]);
      out := out + FieldLine((ck, vs[i])) + CRLF;
      done := done + [(ck, vs[i])];
    }
    assert done + [] == done;
    ok := true;
  }

  /** The fields written so far followed by those of the headers to come. */
  function Total(done: seq<Field>, header: Header): Option<seq<Field>> {
    if AllOk(header) then Some(done + EndToEnd(header)) else None
  }

  lemma TotalTurn(done: seq<Field>, header: Header)
    requires header != []
    ensures Total(done, header) ==
      if HeaderOk(header[0]) then Total(done + Crossing(header[0]), header[1..]) else None
  {
    assert AllOk(header) <==> HeaderOk(header[0]) && AllOk(header[1..]) by {
      assert forall i :: 0 < i < |header| ==> header[i] == header[1..][i - 1];
      assert forall i :: 0 <= i < |header| - 1 ==> header[1..][i] == header[i + 1];
    }
    Assoc(done, Crossing(header[0]), EndToEnd(header[1..]));
  }

  /** The outer loop of `http1Lines`, after the request line and the Host line. */
  method WriteHeaders(first: Bytes, fs: seq<Field>, out0: Bytes, header: Header) returns (res: Option<Bytes>)
    requires out0 == Written([first] + FieldLines(fs))
    ensures match Total(fs, header)
            case None => res == None
            case Some(all) => res == Some(Written([first] + FieldLines(all)))
  {
    var out := out0;
    ghost var done := fs;
    for i := 0 to |header|
      invariant out == Written([first] + FieldLines(done))
      invariant Total(done, header[i..]) == Total(fs, header)
    {
      TotalTurn(done, header[i..]);
      assert header[i..][0] == header[i] && header[i..][1..] == header[i + 1..];
      var (k, vs) := header[i];
      var ck := Canonical(k);
      if Skipped(ck) {
        assert done + [] == done;
      } else {
        if !IsToken(k) { return None; }
        var sent := ValuesSent(ck, vs);
        var ok, more := WriteValues(first, done, out, ck, sent);
        if !ok { return None; }
        out := more;
        done := done + Pairs(ck, sent);
      }
    }
    assert header[|header|..] == [] && done + [] == done;
    return Some(out);
  }

  method Http1Lines(r: Request) returns (res: Option<Bytes>)
    ensures res == if Acceptable(r) then Some(Written([RequestLine(r)] + FieldLines(HeadFields(r)))) else None
  {
    if !ValidHost(r.host) || !IsToken(r.verb) || !ValidTarget(r.target) { return None; }
    var first, host := RequestLine(r), ("Host", r.host);
    WriteField(first, [], host);
    assert Written([first] + FieldLines([])) == first + CRLF && [] + [host] == [host];
    res := WriteHeaders(first, [host], first + CRLF + FieldLine(host) + CRLF, r.header);
  }

  /** `framed`: the framing fields and the blank line, after what `http1Lines` wrote. */
  method Frame(lines: Bytes, r: Request, announced: seq<Bytes>) returns (out: Bytes)
    requires Acceptable(r) && lines == Written([RequestLine(r)] + FieldLines(HeadFields(r)))
    ensures out == Framed(r, announced)
  {
    ghost var l, hs := RequestLine(r), HeadFields(r);
    out := lines;
    if announced != [] {
      var names := ("Trailer", JoinWith(announced, ", "));
      out := out + FieldLine(names) + CRLF;
      out := out + FieldLine(CHUNKED_FIELD) + CRLF;
      WriteField(l, hs, names);
      WriteField(l, hs + [names], CHUNKED_FIELD);
      assert hs + [names, CHUNKED_FIELD] == hs + [names] + [CHUNKED_FIELD];
    } else if r.length > 0 {
      out := out + FieldLine(("Content-Length", Digits(r.length, false))) + CRLF;
      WriteField(l, hs, ("Content-Length", Digits(r.length, false)));
    } else if r.length < 0 {
      out := out + FieldLine(CHUNKED_FIELD) + CRLF;
      WriteField(l, hs, CHUNKED_FIELD);
    } else if MethodHasBody(r.verb) {
      out := out + FieldLine(("Content-Length", Digits(0, false))) + CRLF;
      WriteField(l, hs, ("Content-Length", Digits(0, false)));
    } else {
      assert hs + [] == hs;
    }
    out := out + CRLF;
  }

  lemma {:induction false} ChunksLast(pieces: seq<Bytes>, p: Bytes)
    ensures Chunks(pieces + [p]) == Chunks(pieces) + if p == [] then [] else Chunk(p)
  {
    if pieces == [] {
      assert pieces + [p] == [p] && [p][1..] == [];
    } else {
      ChunksLast(pieces[1..], p);
      assert (pieces + [p])[1..] == pieces[1..] + [p];
      if pieces[0] != [] { Assoc(Chunk(pieces[0]), Chunks(pieces[1..]), if p == [] then [] else Chunk(p)); }
    }
  }

  lemma {:induction false} ChunksGrow(pieces: seq<Bytes>, i: nat)
    requires i <= |pieces|
    ensures |Chunks(pieces[..i])| <= |Chunks(pieces)|
    decreases |pieces| - i
  {
    if i == |pieces| {
      assert pieces[..i] == pieces;
    } else {
      ChunksGrow(pieces, i + 1);
      ChunksLast(pieces[..i], pieces[i]);
      assert pieces[..i + 1] == pieces[..i] + [pieces[i]];
    }
  }

  /** `trailerNames`. */
  method ListTrailers(t: Header) returns (names: seq<Bytes>)
    ensures names == TrailerNames(t)
  {
    names := [];
    for i := 0 to |t|
      invariant names + TrailerNames(t[i..]) == TrailerNames(t)
    {
      assert t[i..][1..] == t[i + 1..];
      if MayTrail(t[i].0) {
        Assoc(names, [t[i].0], TrailerNames(t[i + 1..]));
        names := names + [t[i].0];
      }
    }
    assert names + [] == names;
  }

  /** The lines of one trailer's valid values. */
  method WriteTrailer(ghost fs: seq<Field>, tail0: Bytes, k: Bytes, vs: seq<Bytes>) returns (tail: Bytes)
    requires tail0 == Written(FieldLines(fs))
    ensures tail == Written(FieldLines(fs + Pairs(k, ValidOnly(vs))))
  {
    tail := tail0;
    ghost var done := fs;
    for i := 0 to |vs|
      invariant tail == Written(FieldLines(done)) && done + Pairs(k, ValidOnly(vs[i..])) == fs + Pairs(k, ValidOnly(vs))
    {
      assert vs[i..][1..] == vs[i + 1..];
      if ValidValue(vs[i]) {
        assert ([vs[i]] + ValidOnly(vs[i + 1..]))[1..] == ValidOnly(vs[i + 1..]);
        Assoc(done, [(k, vs[i])], Pairs(k, ValidOnly(vs[i + 1..])));
        FieldLinesLast(done, (k, vs[i]));
        WrittenLast(FieldLines(done), FieldLine((k, vs[i])));
        tail := tail + FieldLine((k, vs[i])) + CRLF;
        done := done + [(k, vs[i])];
      } else {
        assert [] + ValidOnly(vs[i + 1..]) == ValidOnly(vs[i + 1..]);
      }
    }
    assert done + [] == done;
  }

  method WriteTrailers(t: Header) returns (tail: Bytes)
    ensures tail == Written(FieldLines(TrailerFields(t)))
  {
    tail := [];
    ghost var done: seq<Field> := [];
    for i := 0 to |t|
      invariant tail == Written(FieldLines(done)) && done + TrailerFields(t[i..]) == TrailerFields(t)
    {
      assert t[i..][1..] == t[i + 1..];
      if MayTrail(t[i].0) {
        Assoc(done, Pairs(t[i].0, ValidOnly(t[i].1)), TrailerFields(t[i + 1..]));
        tail := WriteTrailer(done, tail, t[i].0, t[i].1);
        done := done + Pairs(t[i].0, ValidOnly(t[i].1));
      } else {
        assert [] + TrailerFields(t[i + 1..]) == TrailerFields(t[i + 1..]);
      }
    }
    assert done + [] == done;
  }

  /** `sendBody`: `pieces` are the reads of the body, the last of which failed unless `ended`; the tunnel takes
      `room` bytes before a write fails. It succeeds exactly if the body ended, or has all of its Content-Length, and
      everything could be written. */
  method SendBody(r: Request, announced: seq<Bytes>, pieces: seq<Bytes>, ended: bool, late: Header, room: nat)
    returns (ok: bool, out: Bytes)
    ensures ok <==>
      && (if IsChunked(r, announced) then ended else r.length <= |Concat(pieces)|)
      && |BodySent(r, announced, pieces, TrailerFields(late))| <= room
    ensures ok ==> out == BodySent(r, announced, pieces, TrailerFields(late))
  {
    if announced != [] || r.length < 0 {
      out := [];
      for i := 0 to |pieces|
        invariant out == Chunks(pieces[..i]) && |out| <= room
      {
        ChunksLast(pieces[..i], pieces[i]);
        assert pieces[..i + 1] == pieces[..i] + [pieces[i]];
        if pieces[i] != [] {
          var chunk := Digits(|pieces[i]|, true) + (CRLF + (pieces[i] + CRLF));
          if |out + chunk| > room {
            ChunksGrow(pieces, i + 1);
            return false, out;
          }
          out := out + chunk;
        }
      }
      assert pieces[..|pieces|] == pieces;
      if !ended { return false, out; }
      var tail := WriteTrailers(late);
      var last := "0" + (CRLF + (tail + CRLF));
      if |out + last| > room { return false, out; }
      return true, out + last;
    }
    if r.length > 0 {
      var all := Concat(pieces);
      if |all| < r.length || r.length > room { return false, []; }
      return true, all[..r.length];
    }
    return true, [];
  }
}

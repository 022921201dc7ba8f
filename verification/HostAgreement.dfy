/** Edge and agent agree on the host of a re-framed HTTP/3 request: `parseHost` on the head that
    is sent finds the one Host field, whatever the client's headers were. */
module HostAgreement {
  import opened Basics
  import opened Bytes
  import opened Http1
  import opened Reframe
  import opened AltSvc
  import opened AltSvcHeads
  import opened Route
  import opened Ingress

  lemma {:induction false} WrittenJoined(l: Bytes, ls: seq<Bytes>)
    ensures Written([l] + ls) == l + Joined(ls) + CRLF
    decreases |ls|
  {
    assert ([l] + ls)[1..] == ls;
    if ls == [] {
      assert Written([l] + ls) == l + (CRLF + []);
    } else {
      WrittenJoined(ls[0], ls[1..]);
      assert [ls[0]] + ls[1..] == ls;
      assert l + (CRLF + (ls[0] + Joined(ls[1..]) + CRLF)) == l + (CRLF + ls[0] + Joined(ls[1..])) + CRLF;
    }
  }

  lemma SplitFirst(l: Bytes, tail: Bytes)
    requires Clean(l)
    ensures SplitLines(l + (CRLF + tail)) == [l] + SplitLines(tail)
  {
    CleanIndex(l, tail);
    var s := l + (CRLF + tail);
    assert s[..|l|] == l && s[|l| + 2..] == tail;
  }

  lemma {:induction false} SplitJoined(l: Bytes, ls: seq<Bytes>)
    requires Clean(l) && CleanLines(ls)
    ensures SplitLines(l + Joined(ls)) == [l] + ls
    decreases |ls|
  {
    if ls == [] {
      assert l + Joined(ls) == l;
      CleanIndex(l, []);
    } else {
      var tail := ls[0] + Joined(ls[1..]);
      SplitJoined(ls[0], ls[1..]);
      assert [ls[0]] + ls[1..] == ls;
      Assoc(CRLF, ls[0], Joined(ls[1..]));
      SplitFirst(l, tail);
    }
  }

  /** A seamless head is the part before the first blank line. */
  lemma BlankAfter(h: Bytes, after: Bytes)
    requires Seamless(h)
    ensures BlankAt(h + ("\r\n\r\n" + after)) == |h|
  {
    var s, n := h + ("\r\n\r\n" + after), |h|;
    assert s[n] == '\r' && s[n + 1] == '\n' && s[n + 2] == '\r' && s[n + 3] == '\n';
    assert BlankLine(s, n);
    forall j | 0 <= j < n ensures !BlankLine(s, j) {
      if j + 1 < n {
        assert SeamAt(h, j + 1) && s[j + 1] == h[j + 1];
        assert j + 2 < n ==> s[j + 2] == h[j + 2];
        assert j + 3 < n ==> s[j + 3] == h[j + 3];
      }
    }
  }

  lemma HostLineIsHost(f: Field)
    requires IsToken(f.0) && IsHostLine(FieldLine(f))
    ensures EqualFold(f.0, "Host")
  {
    TokenIsClean(f.0);
    var l, n := FieldLine(f), |f.0|;
    assert forall k :: 0 <= k < n ==> l[k] == f.0[k] && f.0[k] in f.0;
    assert l[n] == ':';
    assert forall k :: 0 <= k < 5 ==> Lower(l[k]) == Lower("host:"[k]);
    assert n < 5 ==> Lower(l[n]) == Lower("host:"[n]);
    assert Lower(l[4]) == ':' && l[4] !in f.0;
    assert n == 4;
    assert forall k :: 0 <= k < 4 ==> Lower("host:"[k]) == Lower("Host"[k]);
  }

  lemma {:induction false} NoHostLines(fs: seq<Field>)
    requires NoHostField(fs)
    ensures HostValues(FieldLines(fs)) == []
  {
    if fs != [] {
      if IsHostLine(FieldLine(fs[0])) { HostLineIsHost(fs[0]); }
      NoHostLines(fs[1..]);
      assert FieldLines(fs)[1..] == FieldLines(fs[1..]);
    }
  }

  lemma {:induction false} LinesAreClean(fs: seq<Field>)
    requires ValidFields(fs)
    ensures CleanLines(FieldLines(fs))
  {
    if fs != [] {
      FieldLineClean(fs[0]);
      LinesAreClean(fs[1..]);
    }
  }

  lemma HostTrims(h: Bytes)
    requires ValidHost(h)
    ensures TrimSpace(" " + h) == h && TrimSpace(h) == h
  {
    assert (" " + h)[1..] == h;
    assert IsHostChar(h[0]) && IsHostChar(h[|h| - 1]);
    assert !IsSpace(h[0]) && !IsSpace(h[|h| - 1]);
    assert TrimLeft(h) == h && TrimLeft(" " + h) == TrimLeft(h) && TrimRight(h) == h;
  }

  lemma HostLineValue(h: Bytes)
    ensures IsHostLine(FieldLine(("Host", h))) && FieldLine(("Host", h))[5..] == " " + h
  {
    var l := FieldLine(("Host", h));
    assert l == "Host: " + h;
    assert l[..5] == "Host:";
    assert forall k :: 0 <= k < 5 ==> Lower("Host:"[k]) == Lower("host:"[k]);
  }

  predicate NoHostField(fs: seq<Field>) {
    forall k :: 0 <= k < |fs| ==> IsToken(fs[k].0) && !EqualFold(fs[k].0, "Host")
  }

  lemma FramingHasNoHost(r: Request, announced: seq<Bytes>)
    ensures NoHostField(FramingFields(r, announced))
  {
    OddLengths();
    TokenNames();
  }

  lemma HeadersHaveNoHost(r: Request)
    requires Acceptable(r)
    ensures NoHostField(EndToEnd(r.header))
  {
    EndToEndPlain(r.header);
  }

  /** The lines of a head that is sent hold one Host value. */
  lemma HostValuesSent(x: Sent)
    requires Sendable(x)
    ensures HostValues(FieldLines(HeadFields(x.req) + FramingFields(x.req, x.Announced()))) == [" " + x.req.host]
  {
    var a, b := EndToEnd(x.req.header), FramingFields(x.req, x.Announced());
    HeadersHaveNoHost(x.req);
    FramingHasNoHost(x.req, x.Announced());
    HostValuesOf(x.req.host, a + b);
    assert HeadFields(x.req) + b == [("Host", x.req.host)] + (a + b);
  }

  lemma HostValuesOf(host: Bytes, rest: seq<Field>)
    requires NoHostField(rest)
    ensures HostValues(FieldLines([("Host", host)] + rest)) == [" " + host]
  {
    var fs := [("Host", host)] + rest;
    assert fs[1..] == rest;
    var ls := FieldLines(fs);
    assert ls[0] == FieldLine(("Host", host)) && ls[1..] == FieldLines(rest);
    HostLineValue(host);
    NoHostLines(rest);
  }

  lemma HostFieldLine(f: Field)
    requires EqualFold(f.0, "Host")
    ensures IsHostLine(FieldLine(f)) && FieldLine(f)[5..] == " " + f.1
  {
    var l, n, m := FieldLine(f), "Host", "host:";
    assert |f.0| == 4 && l == f.0 + ": " + f.1;
    assert l[4] == ':' && forall k :: 0 <= k < 4 ==> l[k] == f.0[k] && Lower(n[k]) == Lower(m[k]);
    assert l[..5] == f.0 + ":";
  }

  /** As `HostValues` has them, with the space after the colon. */
  function Spaced(vs: seq<Bytes>): seq<Bytes> { if vs == [] then [] else [" " + vs[0]] + Spaced(vs[1..]) }

  lemma {:induction false} HostLinesAre(fs: seq<Field>)
    requires forall k :: 0 <= k < |fs| ==> IsToken(fs[k].0)
    ensures HostValues(FieldLines(fs)) == Spaced(Valued(fs, "Host"))
  {
    if fs != [] {
      HostLinesAre(fs[1..]);
      assert FieldLines(fs)[1..] == FieldLines(fs[1..]);
      var vs := Valued(fs[1..], "Host");
      if EqualFold(fs[0].0, "Host") {
        HostFieldLine(fs[0]);
        assert ([fs[0].1] + vs)[1..] == vs;
      } else {
        assert !IsHostLine(FieldLine(fs[0])) by {
          if IsHostLine(FieldLine(fs[0])) { HostLineIsHost(fs[0]); }
        }
        assert Valued(fs, "Host") == vs;
        assert HostValues(FieldLines(fs)) == HostValues(FieldLines(fs[1..]));
      }
    }
  }

  /** `parseHost` on any head of fields: none named Host and more than one, in whatever case, are errors, and otherwise
      the host is the one value, normalised. */
  lemma HostByFields(l: Bytes, fs: seq<Field>)
    requires Clean(l) && ValidFields(fs)
    ensures HostOf(l + Joined(FieldLines(fs))) ==
      var vs := Valued(fs, "Host");
      if vs == [] then NoHost else if |vs| > 1 then ManyHosts else Host(Normalize(TrimSpace(vs[0])))
  {
    var ls, vs := FieldLines(fs), Valued(fs, "Host");
    LinesAreClean(fs);
    SplitJoined(l, ls);
    assert ([l] + ls)[1..] == ls;
    HostLinesAre(fs);
    SpacedSize(vs);
    if |vs| == 1 {
      var s := " " + vs[0];
      assert s[1..] == vs[0];
      assert TrimLeft(s) == TrimLeft(vs[0]);
    }
  }

  lemma {:induction false} SpacedSize(vs: seq<Bytes>)
    ensures |Spaced(vs)| == |vs|
  {
    if vs != [] { SpacedSize(vs[1..]); }
  }

  lemma TwoBreaks(h: Bytes, after: Bytes)
    ensures (h + CRLF + CRLF) + after == h + ("\r\n\r\n" + after)
  {}

  /** The head of every request sent names one host, which `parseHost` reads as the edge routed it. */
  lemma HostSurvives(x: Sent, after: Bytes)
    requires Sendable(x)
    ensures var s := Framed(x.req, x.Announced()) + after;
      BlankAt(s) >= 0 && HostOf(s[..BlankAt(s)]) == Host(Normalize(x.req.host))
  {
    var l, ls := RequestLine(x.req), FieldLines(HeadFields(x.req) + FramingFields(x.req, x.Announced()));
    var h := l + Joined(ls);
    var s := Framed(x.req, x.Announced()) + after;
    RequestLineBack(x.req);
    AllFieldsValid(x);
    LinesAreClean(HeadFields(x.req) + FramingFields(x.req, x.Announced()));
    WrittenJoined(l, ls);
    TwoBreaks(h, after);
    SeamlessJoined(l, ls);
    BlankAfter(h, after);
    assert s[..|h|] == h;
    SplitJoined(l, ls);
    assert ([l] + ls)[1..] == ls;
    HostValuesSent(x);
    HostTrims(x.req.host);
  }
}

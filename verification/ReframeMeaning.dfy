/** What a re-framed request means to the service, told field name by field name from what the client sent, and not
    by the functions that write it. */
module ReframeMeaning {
  import opened Basics
  import opened Bytes
  import opened Http1
  import opened Reframe

  // ---- Names ----

  /** Fields of the client that are not passed on as they are: those that stay on their hop (section 7.6.1 of RFC 9110),
      and those that name the host and frame the message. */
  const WITHHELD: seq<Bytes> := [
    "Connection", "Keep-Alive", "Proxy-Connection", "Transfer-Encoding", "Upgrade", "Te", "Trailer", "Host",
    "Content-Length"
  ]

  /** Fields that are no trailers: they frame, route or authenticate a message, or say how to treat it (section 6.5.1 of
      RFC 9110). */
  const NEVER_TRAIL: seq<Bytes> := [
    "Host", "Content-Length", "Transfer-Encoding", "Authorization", "Cache-Control", "Connection", "Content-Encoding",
    "Content-Range", "Content-Type", "Expect", "Keep-Alive", "Max-Forwards", "Pragma", "Proxy-Authenticate",
    "Proxy-Authorization", "Proxy-Connection", "Range", "Realm", "Te", "Trailer", "Www-Authenticate"
  ]

  /** One of the names, however it is spelt. */
  predicate AmongNames(name: Bytes, names: seq<Bytes>) { exists i :: 0 <= i < |names| && EqualFold(name, names[i]) }

  predicate Withheld(name: Bytes) { AmongNames(name, WITHHELD) }

  predicate CanonicalName(n: Bytes) { IsToken(n) && forall i: nat :: i < |n| ==> CanonicalChar(n, i) == n[i] }

  /** A canonical name stands for all its spellings. */
  lemma CanonicalIs(k: Bytes, name: Bytes)
    requires IsToken(k) && CanonicalName(name)
    ensures Canonical(k) == name <==> EqualFold(k, name)
  {
    CanonicalFixed(name);
    CanonicalFolds(k);
    if EqualFold(k, name) { CanonicalFold(k, name); }
  }

  lemma ListIs(k: Bytes, names: seq<Bytes>)
    requires IsToken(k) && forall n <- names :: CanonicalName(n)
    ensures Canonical(k) in names <==> AmongNames(k, names)
  {
    forall i | 0 <= i < |names| ensures Canonical(k) == names[i] <==> EqualFold(k, names[i]) {
      CanonicalIs(k, names[i]);
    }
  }

  /** A capital and small letters. */
  predicate IsWord(w: Bytes) { w != [] && 'A' <= w[0] <= 'Z' && forall i :: 0 < i < |w| ==> 'a' <= w[i] <= 'z' }

  lemma WordIsCanonical(w: Bytes)
    requires IsWord(w)
    ensures CanonicalName(w)
  {}

  lemma Hyphened(a: Bytes, b: Bytes)
    requires IsWord(a) && IsWord(b)
    ensures CanonicalName(a + "-" + b)
  {
    var n := a + "-" + b;
    forall i: nat | i < |n| ensures IsTokenChar(n[i]) && CanonicalChar(n, i) == n[i] {
      if i < |a| { assert n[i] == a[i]; } else if i > |a| { assert n[i] == b[i - |a| - 1]; }
    }
  }

  lemma Words1()
    ensures IsWord("Connection") && IsWord("Keep") && IsWord("Alive")
    ensures IsWord("Proxy") && IsWord("Transfer") && IsWord("Encoding")
  {}

  lemma Words2()
    ensures IsWord("Upgrade") && IsWord("Te") && IsWord("Trailer")
    ensures IsWord("Host") && IsWord("Content") && IsWord("Length")
  {}

  lemma Words3()
    ensures IsWord("Authorization") && IsWord("Cache") && IsWord("Control")
    ensures IsWord("Range") && IsWord("Type") && IsWord("Expect")
  {}

  lemma Words4()
    ensures IsWord("Max") && IsWord("Forwards") && IsWord("Pragma")
    ensures IsWord("Authenticate") && IsWord("Realm") && IsWord("Www")
  {}

  lemma Words5()
    ensures IsWord("Cookie")
  {}

  lemma PlainNames()
    ensures CanonicalName("Connection") && CanonicalName("Upgrade") && CanonicalName("Te")
    ensures CanonicalName("Trailer") && CanonicalName("Host") && CanonicalName("Authorization")
    ensures CanonicalName("Expect") && CanonicalName("Pragma") && CanonicalName("Range")
    ensures CanonicalName("Realm") && CanonicalName("Cookie")
  {
    Words1();
    Words2();
    Words3();
    Words4();
    Words5();
    WordIsCanonical("Connection");
    WordIsCanonical("Upgrade");
    WordIsCanonical("Te");
    WordIsCanonical("Trailer");
    WordIsCanonical("Host");
    WordIsCanonical("Authorization");
    WordIsCanonical("Expect");
    WordIsCanonical("Pragma");
    WordIsCanonical("Range");
    WordIsCanonical("Realm");
    WordIsCanonical("Cookie");
  }

  lemma HyphenNames1()
    ensures CanonicalName("Keep-Alive") && CanonicalName("Proxy-Connection") && CanonicalName("Transfer-Encoding")
    ensures CanonicalName("Content-Length")
  {
    Words1();
    Words2();
    Words3();
    Words4();
    Words5();
    Hyphened("Keep", "Alive");
    assert "Keep" + "-" + "Alive" == "Keep-Alive";
    Hyphened("Proxy", "Connection");
    assert "Proxy" + "-" + "Connection" == "Proxy-Connection";
    Hyphened("Transfer", "Encoding");
    assert "Transfer" + "-" + "Encoding" == "Transfer-Encoding";
    Hyphened("Content", "Length");
    assert "Content" + "-" + "Length" == "Content-Length";
  }

  lemma HyphenNames2()
    ensures CanonicalName("Cache-Control") && CanonicalName("Content-Encoding") && CanonicalName("Content-Range")
    ensures CanonicalName("Content-Type")
  {
    Words1();
    Words2();
    Words3();
    Words4();
    Words5();
    Hyphened("Cache", "Control");
    assert "Cache" + "-" + "Control" == "Cache-Control";
    Hyphened("Content", "Encoding");
    assert "Content" + "-" + "Encoding" == "Content-Encoding";
    Hyphened("Content", "Range");
    assert "Content" + "-" + "Range" == "Content-Range";
    Hyphened("Content", "Type");
    assert "Content" + "-" + "Type" == "Content-Type";
  }

  lemma HyphenNames3()
    ensures CanonicalName("Max-Forwards") && CanonicalName("Proxy-Authenticate") && CanonicalName("Proxy-Authorization")
    ensures CanonicalName("Www-Authenticate")
  {
    Words1();
    Words2();
    Words3();
    Words4();
    Words5();
    Hyphened("Max", "Forwards");
    assert "Max" + "-" + "Forwards" == "Max-Forwards";
    Hyphened("Proxy", "Authenticate");
    assert "Proxy" + "-" + "Authenticate" == "Proxy-Authenticate";
    Hyphened("Proxy", "Authorization");
    assert "Proxy" + "-" + "Authorization" == "Proxy-Authorization";
    Hyphened("Www", "Authenticate");
    assert "Www" + "-" + "Authenticate" == "Www-Authenticate";
  }

  lemma WithheldCanonical()
    ensures HOP + ["Host", "Content-Length"] == WITHHELD && forall n <- WITHHELD :: CanonicalName(n)
  {
    PlainNames();
    HyphenNames1();
    HyphenNames2();
    HyphenNames3();
  }

  lemma NeverTrailCanonical()
    ensures NOT_TRAILERS == NEVER_TRAIL && forall n <- NEVER_TRAIL :: CanonicalName(n)
  {
    PlainNames();
    HyphenNames1();
    HyphenNames2();
    HyphenNames3();
  }

  lemma SkippedIsWithheld(k: Bytes)
    requires IsToken(k)
    ensures Skipped(Canonical(k)) <==> Withheld(k)
  {
    WithheldCanonical();
    ListIs(k, WITHHELD);
    assert Skipped(Canonical(k)) <==> Canonical(k) in HOP + ["Host", "Content-Length"];
  }

  /** Only names that are tokens are withheld by what they are spelt like. */
  lemma SkippedIsToken(k: Bytes)
    requires Skipped(Canonical(k))
    ensures IsToken(k)
  {
    WithheldCanonical();
    assert !IsToken(k) ==> k in HOP + ["Host", "Content-Length"];
  }

  lemma WithheldFolds(a: Bytes, b: Bytes)
    requires EqualFold(a, b)
    ensures Withheld(a) <==> Withheld(b)
  {
    forall n <- WITHHELD ensures EqualFold(a, n) <==> EqualFold(b, n) { FoldsAlike(a, b, n); }
  }

  lemma CookieIs(k: Bytes)
    requires IsToken(k)
    ensures Canonical(k) == "Cookie" <==> EqualFold(k, "Cookie")
  {
    PlainNames();
    CanonicalIs(k, "Cookie");
  }

  // ---- Values ----

  /** Values one after the other, with `sep` between. */
  function Strung(vs: seq<Bytes>, sep: Bytes): Bytes
    requires vs != []
  {
    var n := |vs| - 1;
    if n == 0 then vs[0] else Strung(vs[..n], sep) + (sep + vs[n])
  }

  lemma {:induction false} JoinLast(a: seq<Bytes>, b: Bytes, sep: Bytes)
    requires a != []
    ensures JoinWith(a + [b], sep) == JoinWith(a, sep) + (sep + b)
  {
    if |a| == 1 {
      assert a + [b] == [a[0], b] && [a[0], b][1..] == [b];
      Assoc(a[0], sep, b);
    } else {
      JoinLast(a[1..], b, sep);
      assert (a + [b])[1..] == a[1..] + [b];
      Assoc(a[0] + sep, JoinWith(a[1..], sep), sep + b);
    }
  }

  lemma {:induction false} JoinIsStrung(vs: seq<Bytes>, sep: Bytes)
    requires vs != []
    ensures JoinWith(vs, sep) == Strung(vs, sep)
  {
    var n := |vs| - 1;
    if n > 0 {
      JoinIsStrung(vs[..n], sep);
      JoinLast(vs[..n], vs[n], sep);
      assert vs[..n] + [vs[n]] == vs;
    }
  }

  /** The lines one header of the client comes to: its values, or one line for several cookies, which HTTP/1.1 has
      once. */
  function LinesOf(name: Bytes, vs: seq<Bytes>): seq<Bytes> {
    if EqualFold(name, "Cookie") && |vs| > 1 then [Strung(vs, "; ")] else vs
  }

  /** All lines the client gave under a name, however it spelt it, in order. */
  function Given(header: Header, name: Bytes): seq<Bytes> {
    if header == [] then []
    else (if EqualFold(header[0].0, name) then LinesOf(name, header[0].1) else []) + Given(header[1..], name)
  }

  /** Without the optional whitespace around each. */
  function TrimAll(vs: seq<Bytes>): (r: seq<Bytes>)
    ensures |r| == |vs| && forall i :: 0 <= i < |vs| ==> r[i] == TrimOWS(vs[i])
  {
    if vs == [] then [] else [TrimOWS(vs[0])] + TrimAll(vs[1..])
  }

  lemma TrimAllJoin(a: seq<Bytes>, b: seq<Bytes>)
    ensures TrimAll(a + b) == TrimAll(a) + TrimAll(b)
  {}

  lemma {:induction false} PairsValued(k: Bytes, vs: seq<Bytes>, name: Bytes)
    ensures Valued(Trimmed(Pairs(k, vs)), name) == if EqualFold(k, name) then TrimAll(vs) else []
  {
    if vs != [] {
      PairsValued(k, vs[1..], name);
      var ps := Pairs(k, vs);
      assert ps[0] == (k, vs[0]) && ps[1..] == Pairs(k, vs[1..]);
      assert Trimmed(ps)[1..] == Trimmed(ps[1..]);
      assert TrimAll(vs) == [TrimOWS(vs[0])] + TrimAll(vs[1..]);
    }
  }

  /** One header of the client, as it crosses. */
  lemma CrossingValued(h: (Bytes, seq<Bytes>), name: Bytes)
    requires HeaderOk(h)
    ensures Valued(Trimmed(Crossing(h)), name) ==
      if EqualFold(h.0, name) && !Withheld(name) then TrimAll(LinesOf(name, h.1)) else []
  {
    var ck := Canonical(h.0);
    if Skipped(ck) { SkippedIsToken(h.0); }
    SkippedIsWithheld(h.0);
    CanonicalFolds(h.0);
    if EqualFold(h.0, name) { WithheldFolds(h.0, name); }
    if !Skipped(ck) {
      PairsValued(ck, ValuesSent(ck, h.1), name);
      CookieIs(h.0);
      FoldsAlike(ck, h.0, name);
      if EqualFold(h.0, name) { FoldsAlike(h.0, name, "Cookie"); }
      if |h.1| > 1 { JoinIsStrung(h.1, "; "); }
    }
  }

  lemma FoldsAlike(a: Bytes, b: Bytes, c: Bytes)
    requires EqualFold(a, b)
    ensures EqualFold(a, c) <==> EqualFold(b, c)
  {}

  lemma {:induction false} EndToEndMeans(header: Header, name: Bytes)
    requires AllOk(header)
    ensures Valued(Trimmed(EndToEnd(header)), name) == if Withheld(name) then [] else TrimAll(Given(header, name))
  {
    if header != [] {
      EndToEndMeans(header[1..], name);
      assert HeaderOk(header[0]);
      CrossingValued(header[0], name);
      TrimmedAppend(Crossing(header[0]), EndToEnd(header[1..]));
      ValuedAppend(Trimmed(Crossing(header[0])), Trimmed(EndToEnd(header[1..])), name);
      TrimAllJoin(if EqualFold(header[0].0, name) then LinesOf(name, header[0].1) else [], Given(header[1..], name));
    }
  }

  // ---- Framing ----

  lemma {:induction false} ValuedFolds(fs: seq<Field>, a: Bytes, b: Bytes)
    requires EqualFold(a, b)
    ensures Valued(fs, a) == Valued(fs, b)
  {
    if fs != [] {
      ValuedFolds(fs[1..], a, b);
      FoldsAlike(a, b, fs[0].0);
    }
  }

  /** What the edge itself says about the framing, under any name. */
  function FramingMeant(r: Request, announced: seq<Bytes>, name: Bytes): seq<Bytes> {
    if EqualFold(name, "Transfer-Encoding") then if announced != [] || r.length < 0 then ["chunked"] else []
    else if EqualFold(name, "Content-Length") then
      if announced == [] && (r.length > 0 || (r.length == 0 && r.verb in ["POST", "PUT", "PATCH"]))
      then [Digits(r.length, false)] else []
    else if EqualFold(name, "Trailer") then if announced != [] then [TrimOWS(Strung(announced, ", "))] else []
    else []
  }

  lemma FramingMeans(r: Request, announced: seq<Bytes>, name: Bytes)
    ensures Valued(Framing(r, announced), name) == FramingMeant(r, announced, name)
  {
    OddLengths();
    if EqualFold(name, "Transfer-Encoding") {
      OneFraming(r, announced);
      ValuedFolds(Framing(r, announced), name, "Transfer-Encoding");
    } else if EqualFold(name, "Content-Length") {
      OneFraming(r, announced);
      ValuedFolds(Framing(r, announced), name, "Content-Length");
    } else {
      OtherFraming(r, announced, name);
      if announced != [] { JoinIsStrung(announced, ", "); }
    }
  }

  lemma OtherFraming(r: Request, announced: seq<Bytes>, name: Bytes)
    requires !EqualFold(name, "Transfer-Encoding") && !EqualFold(name, "Content-Length")
    ensures Valued(Framing(r, announced), name) ==
      if EqualFold(name, "Trailer") && announced != [] then [TrimOWS(JoinWith(announced, ", "))] else []
  {
    var fs, framing := FramingFields(r, announced), Framing(r, announced);
    FoldsBack("Transfer-Encoding", name);
    FoldsBack("Content-Length", name);
    FoldsBack("Trailer", name);
    if |fs| == 1 {
      ValuedShort(fs[0], fs[0], name);
      assert fs == [fs[0]];
      ValuedShort(framing[0], framing[0], name);
    } else if |fs| == 2 {
      ValuedShort(fs[0], fs[1], name);
      assert fs == [fs[0], fs[1]];
      ValuedShort(framing[0], framing[1], name);
    }
  }

  lemma FoldsBack(a: Bytes, b: Bytes)
    ensures EqualFold(a, b) <==> EqualFold(b, a)
  {}

  // ---- The whole head ----

  /** What the service is to find under a name: its host, the edge's own framing, nothing of what is withheld, and
      otherwise what the client gave. */
  function Meant(x: Sent, name: Bytes): seq<Bytes> {
    if EqualFold(name, "Host") then [TrimOWS(x.req.host)]
    else if Withheld(name) then FramingMeant(x.req, x.Announced(), name)
    else TrimAll(Given(x.req.header, name))
  }

  /** Re-framing keeps what the client said and adds nothing but the framing: under every name the service finds exactly
      what it is to find, in order, up to optional whitespace. */
  lemma FieldsMeant(x: Sent, name: Bytes)
    requires Sendable(x)
    ensures Valued(Meaning(x).fields, name) == Meant(x, name)
  {
    var h, es, fr := [("Host", x.req.host)], EndToEnd(x.req.header), Framing(x.req, x.Announced());
    TrimmedAppend(h, es);
    ValuedAppend(Trimmed(h), Trimmed(es), name);
    ValuedAppend(Trimmed(h) + Trimmed(es), fr, name);
    ValuedShort(h[0], h[0], name);
    assert h == [h[0]];
    ValuedShort(("Host", TrimOWS(x.req.host)), h[0], name);
    FoldsBack("Host", name);
    EndToEndMeans(x.req.header, name);
    FramingMeans(x.req, x.Announced(), name);
    HostIsWithheld(name);
  }

  lemma HostIsWithheld(name: Bytes)
    ensures EqualFold(name, "Host") ==> Withheld(name)
    ensures EqualFold(name, "Host") ==> NotFraming(name)
    ensures EqualFold(name, "Transfer-Encoding") || EqualFold(name, "Content-Length") || EqualFold(name, "Trailer") ==>
      Withheld(name)
  {
    OddLengths();
    assert WITHHELD[7] == "Host" && WITHHELD[3] == "Transfer-Encoding" && WITHHELD[8] == "Content-Length";
    assert WITHHELD[6] == "Trailer";
  }

  /** Not one of the names the framing uses. */
  predicate NotFraming(name: Bytes) {
    !EqualFold(name, "Transfer-Encoding") && !EqualFold(name, "Content-Length") && !EqualFold(name, "Trailer")
  }

  // ---- Trailers ----

  /** A name that no trailer has: one of the list, or a conditional. */
  predicate NeverTrails(name: Bytes) {
    AmongNames(name, NEVER_TRAIL) || (|name| >= 3 && EqualFold(name[..3], "If-"))
  }

  lemma Conditional(k: Bytes)
    requires IsToken(k)
    ensures "If-" <= Canonical(k) <==> |k| >= 3 && EqualFold(k[..3], "If-")
  {
    if |k| >= 3 {
      CasedAt(k, true, 0);
      CasedAt(k, true, 1);
      CasedAt(k, true, 2);
    }
  }

  lemma MayTrailIs(k: Bytes)
    ensures MayTrail(k) <==> IsToken(k) && !NeverTrails(k)
  {
    if IsToken(k) {
      NeverTrailCanonical();
      ListIs(k, NEVER_TRAIL);
      Conditional(k);
    }
  }

  lemma NeverTrailsFolds(a: Bytes, b: Bytes)
    requires EqualFold(a, b)
    ensures NeverTrails(a) <==> NeverTrails(b)
  {
    forall n <- NEVER_TRAIL ensures EqualFold(a, n) <==> EqualFold(b, n) { FoldsAlike(a, b, n); }
    if |a| >= 3 { FoldsAlike(a[..3], b[..3], "If-"); }
  }

  /** The values that may be sent. */
  function Fit(vs: seq<Bytes>): seq<Bytes> {
    if vs == [] then []
    else var n := |vs| - 1; Fit(vs[..n]) + if ValidValue(vs[n]) then [vs[n]] else []
  }

  lemma {:induction false} ValidOnlyLast(a: seq<Bytes>, b: Bytes)
    ensures ValidOnly(a + [b]) == ValidOnly(a) + if ValidValue(b) then [b] else []
  {
    if a == [] {
      assert a + [b] == [b] && [b][1..] == [];
    } else {
      ValidOnlyLast(a[1..], b);
      assert (a + [b])[1..] == a[1..] + [b];
      Assoc(if ValidValue(a[0]) then [a[0]] else [], ValidOnly(a[1..]), if ValidValue(b) then [b] else []);
    }
  }

  lemma {:induction false} ValidOnlyIsFit(vs: seq<Bytes>)
    ensures ValidOnly(vs) == Fit(vs)
  {
    if vs != [] {
      var n := |vs| - 1;
      ValidOnlyIsFit(vs[..n]);
      ValidOnlyLast(vs[..n], vs[n]);
      assert vs[..n] + [vs[n]] == vs;
    }
  }

  /** All fit values the client gave as trailers under a name. */
  function GivenTrailers(t: Header, name: Bytes): seq<Bytes> {
    if t == [] then []
    else (if IsToken(t[0].0) && EqualFold(t[0].0, name) then Fit(t[0].1) else []) + GivenTrailers(t[1..], name)
  }

  /** Under every name the service finds, as trailers, the fit values the client gave, in order and up to optional
      whitespace, if it is a name a trailer may have, and nothing otherwise. */
  lemma {:induction false} TrailersMeant(t: Header, name: Bytes)
    ensures Valued(Trimmed(TrailerFields(t)), name) == if NeverTrails(name) then [] else TrimAll(GivenTrailers(t, name))
  {
    if t != [] {
      TrailersMeant(t[1..], name);
      var k, vs := t[0].0, t[0].1;
      MayTrailIs(k);
      if EqualFold(k, name) { NeverTrailsFolds(k, name); }
      ValidOnlyIsFit(vs);
      PairsValued(k, ValidOnly(vs), name);
      var first := if MayTrail(k) then Pairs(k, ValidOnly(vs)) else [];
      TrimmedAppend(first, TrailerFields(t[1..]));
      ValuedAppend(Trimmed(first), Trimmed(TrailerFields(t[1..])), name);
      TrimAllJoin(if IsToken(k) && EqualFold(k, name) then Fit(vs) else [], GivenTrailers(t[1..], name));
    }
  }

  // ---- The whole request ----

  /** What an RFC 9112 reader makes of a re-framed request, whatever follows it on the stream: the client's method,
      target, body and, name by name, fields and trailers, with the host and the framing in their place. */
  lemma RequestArrives(x: Sent, after: Bytes)
    requires Sendable(x)
    ensures Decode(Encode(x) + after).Some?
    ensures var (m, rest) := Decode(Encode(x) + after).value;
      && m.verb == x.req.verb && m.target == x.req.target && rest == after
      && (forall name: Bytes :: Valued(m.fields, name) == Meant(x, name))
      && m.body == (if IsChunked(x.req, x.Announced()) then Concat(x.pieces) else Concat(x.pieces)[..x.req.length])
      && forall name: Bytes :: Valued(m.trailers, name) ==
           if IsChunked(x.req, x.Announced()) && !NeverTrails(name) then TrimAll(GivenTrailers(x.late, name)) else []
  {
    RoundTrip(x, after);
    forall name: Bytes ensures Valued(Meaning(x).fields, name) == Meant(x, name) { FieldsMeant(x, name); }
    forall name: Bytes ensures Valued(Trimmed(x.Trailers()), name) ==
      if NeverTrails(name) then [] else TrimAll(GivenTrailers(x.late, name))
    {
      TrailersMeant(x.late, name);
    }
  }

  // ---- An example ----

  /** A request with two cookies, to a port. */
  function Cookies(): Sent { Sent(Request("GET", "/", "a:8443", [("cookie", ["x=1", "y=2"])], 0), [], [], []) }

  lemma CookieCrosses(h: (Bytes, seq<Bytes>))
    requires h == ("cookie", ["x=1", "y=2"])
    ensures HeaderOk(h) && Crossing(h) == [("Cookie", "x=1; y=2")]
  {
    var vs := ["x=1", "y=2"];
    PlainNames();
    assert IsToken("cookie");
    CanonicalIs("cookie", "Cookie");
    SkippedIsWithheld("cookie");
    assert vs[1..] == ["y=2"] && JoinWith(vs, "; ") == "x=1" + "; " + "y=2" == "x=1; y=2";
    assert ["x=1; y=2"][1..] == [];
  }

  lemma CookiesAcceptable(r: Request)
    requires r == Cookies().req
    ensures Acceptable(r)
  {
    CookieCrosses(r.header[0]);
    assert r.header == [r.header[0]];
  }

  /** Such a request is sent, and its cookies cross in one line; nothing else does. */
  lemma CookiesCross(x: Sent)
    requires x == Cookies()
    ensures Sendable(x) && EndToEnd(x.req.header) == [("Cookie", "x=1; y=2")]
  {
    var header := x.req.header;
    CookiesAcceptable(x.req);
    CookieCrosses(header[0]);
    assert header[1..] == [] && EndToEnd(header) == Crossing(header[0]) + [];
  }

  // ---- Which requests are refused ----

  predicate Visible(c: char) { '!' <= c <= '~' }

  /** A name or a method: visible characters, and none of the delimiters of section 5.6.2 of RFC 9110. */
  predicate Tokenlike(s: Bytes) {
    s != "" && forall c <- s ::
      Visible(c) && c !in {'"', '(', ')', ',', '/', ':', ';', '<', '=', '>', '?', '@', '[', '\\', ']', '{', '}'}
  }

  predicate Hostlike(s: Bytes) {
    s != "" && forall c <- s ::
      Visible(c) && c !in {'"', '#', '/', '<', '>', '?', '@', '\\', '^', '`', '{', '|', '}'}
  }

  /** No control character but the tab. */
  predicate Printable(s: Bytes) { forall c <- s :: c != 127 as char && (c as int >= 32 || c == '\t') }

  lemma TokenlikeIs(s: Bytes)
    ensures IsToken(s) <==> Tokenlike(s)
  {
    forall k | 0 <= k < |s| ensures s[k] in s {}
  }

  lemma HostlikeIs(s: Bytes)
    ensures ValidHost(s) <==> Hostlike(s)
  {
    forall k | 0 <= k < |s| ensures s[k] in s {}
  }

  lemma PrintableIs(s: Bytes)
    ensures ValidValue(s) <==> Printable(s)
  {
    forall k | 0 <= k < |s| ensures s[k] in s {}
  }

  predicate Plain(h: (Bytes, seq<Bytes>)) { Tokenlike(h.0) && forall i :: 0 <= i < |h.1| ==> Printable(h.1[i]) }

  /** A value strung together from others is valid exactly if they are. */
  lemma {:induction false} JoinPrintable(vs: seq<Bytes>, sep: Bytes)
    requires Printable(sep)
    ensures Printable(JoinWith(vs, sep)) <==> forall i :: 0 <= i < |vs| ==> Printable(vs[i])
  {
    if |vs| > 1 {
      JoinPrintable(vs[1..], sep);
      var rest := JoinWith(vs[1..], sep);
      assert forall c :: c in vs[0] + sep + rest <==> c in vs[0] || c in sep || c in rest;
      assert forall i :: 0 < i < |vs| ==> vs[i] == vs[1..][i - 1];
    }
  }

  lemma FoldToken(a: Bytes, b: Bytes)
    requires EqualFold(a, b) && IsToken(b)
    ensures IsToken(a)
  {
    forall k | 0 <= k < |a| ensures IsTokenChar(a[k]) { assert Lower(a[k]) == Lower(b[k]) && IsTokenChar(b[k]); }
  }

  lemma WithheldIsToken(k: Bytes)
    requires Withheld(k)
    ensures IsToken(k)
  {
    WithheldCanonical();
    var n :| n in WITHHELD && EqualFold(k, n);
    assert CanonicalName(n);
    FoldToken(k, n);
  }

  lemma CrossingOk(h: (Bytes, seq<Bytes>))
    ensures HeaderOk(h) <==> Withheld(h.0) || Plain(h)
  {
    assert Skipped(Canonical(h.0)) <==> Withheld(h.0) by {
      if Skipped(Canonical(h.0)) { SkippedIsToken(h.0); }
      if Withheld(h.0) { WithheldIsToken(h.0); }
      if IsToken(h.0) { SkippedIsWithheld(h.0); }
    }
    TokenlikeIs(h.0);
    ValuesOk(Canonical(h.0), h.1);
  }

  lemma ValuesOk(ck: Bytes, vs: seq<Bytes>)
    ensures ValidValues(ValuesSent(ck, vs)) <==> forall i :: 0 <= i < |vs| ==> Printable(vs[i])
  {
    forall i | 0 <= i < |vs| ensures ValidValue(vs[i]) <==> Printable(vs[i]) { PrintableIs(vs[i]); }
    if ck == "Cookie" && |vs| > 1 {
      var joined := JoinWith(vs, "; ");
      JoinPrintable(vs, "; ");
      PrintableIs(joined);
      assert ValidValues([joined]) <==> ValidValue(joined) by { assert [joined][0] == joined; }
    }
  }

  /** A request is refused exactly if its host, its method, its target or a header that would cross has a character that
      does not belong there, or the first three are empty. */
  lemma AcceptableMeans(r: Request)
    ensures Acceptable(r) <==>
      && Hostlike(r.host) && Tokenlike(r.verb)
      && r.target != "" && (forall c <- r.target :: c !in {' ', '\t', '\r', '\n'})
      && forall i :: 0 <= i < |r.header| ==> Withheld(r.header[i].0) || Plain(r.header[i])
  {
    HostlikeIs(r.host);
    TokenlikeIs(r.verb);
    assert ValidTarget(r.target) <==> r.target != "" && forall c <- r.target :: c !in {' ', '\t', '\r', '\n'} by {
      forall k | 0 <= k < |r.target| ensures r.target[k] in r.target {}
    }
    forall i | 0 <= i < |r.header| ensures HeaderOk(r.header[i]) <==> Withheld(r.header[i].0) || Plain(r.header[i]) {
      CrossingOk(r.header[i]);
    }
  }
}

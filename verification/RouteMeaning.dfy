/** What host names and patterns mean to the matcher: which spellings name one host, and which hosts a wildcard
    covers. */
module RouteMeaning {
  import opened Bytes
  import opened Options
  import opened Route

  // ---- Case ----

  predicate Mark(c: char) { c == ':' || c == '[' || c == ']' || c == '.' }

  /** Folding changes letters only. */
  lemma FoldPlain(c: char, d: char)
    requires Lower(c) == Lower(d)
    ensures IsSpace(c) <==> IsSpace(d)
    ensures Mark(c) || Mark(d) ==> c == d
  {}

  lemma FoldPart(a: Bytes, b: Bytes, i: nat, j: nat)
    requires EqualFold(a, b) && i <= j <= |a|
    ensures EqualFold(a[i..j], b[i..j])
  {}

  lemma FoldIn(a: Bytes, b: Bytes, c: char)
    requires EqualFold(a, b) && (c == '[' || c == ']' || c == ':')
    ensures c in a <==> c in b
  {
    forall k | 0 <= k < |a| ensures a[k] == c <==> b[k] == c { FoldPlain(a[k], b[k]); }
  }

  lemma {:induction false} FoldTrimLeft(a: Bytes, b: Bytes)
    requires EqualFold(a, b)
    ensures EqualFold(TrimLeft(a), TrimLeft(b))
  {
    if a != [] {
      FoldPlain(a[0], b[0]);
      FoldPart(a, b, 1, |a|);
      FoldTrimLeft(a[1..], b[1..]);
    }
  }

  lemma {:induction false} FoldTrimRight(a: Bytes, b: Bytes)
    requires EqualFold(a, b)
    ensures EqualFold(TrimRight(a), TrimRight(b))
  {
    if a != [] {
      var n := |a| - 1;
      FoldPlain(a[n], b[n]);
      FoldPart(a, b, 0, n);
      FoldTrimRight(a[..n], b[..n]);
    }
  }

  lemma {:induction false} FoldLastIndex(a: Bytes, b: Bytes)
    requires EqualFold(a, b)
    ensures LastIndex(a, ':') == LastIndex(b, ':')
  {
    forall k | 0 <= k < |a| ensures a[k] == ':' <==> b[k] == ':' { FoldPlain(a[k], b[k]); }
  }

  lemma {:induction false} FoldFirstIndex(a: Bytes, b: Bytes)
    requires EqualFold(a, b)
    ensures FirstIndex(a, ']') == FirstIndex(b, ']')
  {
    if a != [] {
      FoldPlain(a[0], b[0]);
      FoldPart(a, b, 1, |a|);
      FoldFirstIndex(a[1..], b[1..]);
    }
  }

  ghost predicate SameSplit(a: Option<Bytes>, b: Option<Bytes>) {
    a.Some? == b.Some? && (a.Some? ==> EqualFold(a.value, b.value))
  }

  lemma FoldSplit(a: Bytes, b: Bytes)
    requires EqualFold(a, b)
    ensures SameSplit(SplitHostPort(a), SplitHostPort(b))
  {
    FoldLastIndex(a, b);
    FoldFirstIndex(a, b);
    var i, end := LastIndex(a, ':'), FirstIndex(a, ']');
    FoldIn(a, b, '[');
    FoldIn(a, b, ']');
    if i >= 0 {
      FoldPlain(a[0], b[0]);
      FoldPart(a, b, 0, i);
      FoldIn(a[..i], b[..i], ':');
      if a[0] == '[' && end >= 0 {
        FoldPart(a, b, 1, |a|);
        FoldIn(a[1..], b[1..], '[');
        FoldPart(a, b, end + 1, |a|);
        FoldIn(a[end + 1..], b[end + 1..], ']');
        FoldPart(a, b, 1, end);
      }
    }
  }

  lemma FoldTrimDot(a: Bytes, b: Bytes)
    requires EqualFold(a, b)
    ensures EqualFold(TrimDot(a), TrimDot(b))
  {
    if a != [] {
      FoldPlain(a[|a| - 1], b[|a| - 1]);
      FoldPart(a, b, 0, |a| - 1);
    }
  }

  /** Case does not matter, whatever the host looks like. */
  lemma CaseIgnored(a: Bytes, b: Bytes)
    requires EqualFold(a, b)
    ensures Normalize(a) == Normalize(b)
  {
    FoldTrimLeft(a, b);
    FoldTrimRight(TrimLeft(a), TrimLeft(b));
    var s, t := TrimSpace(a), TrimSpace(b);
    FoldSplit(s, t);
    var x := match SplitHostPort(s) { case Some(h) => h case None => s };
    var y := match SplitHostPort(t) { case Some(h) => h case None => t };
    FoldTrimDot(x, y);
    assert ToLower(TrimDot(x)) == ToLower(TrimDot(y));
  }

  // ---- White space, port and final dot ----

  predicate Spaces(s: Bytes) { forall c <- s :: IsSpace(c) }
  predicate Solid(s: Bytes) { forall c <- s :: !IsSpace(c) }

  lemma {:induction false} TrimLeftSpaces(a: Bytes, s: Bytes)
    requires Spaces(a) && (s == [] || !IsSpace(s[0]))
    ensures TrimLeft(a + s) == s
  {
    if a == [] {
      assert a + s == s;
    } else {
      assert a[0] in a && forall c <- a[1..] :: c in a;
      TrimLeftSpaces(a[1..], s);
      assert (a + s)[1..] == a[1..] + s;
    }
  }

  lemma {:induction false} TrimRightSpaces(s: Bytes, b: Bytes)
    requires Spaces(b) && (s == [] || !IsSpace(s[|s| - 1]))
    ensures TrimRight(s + b) == s
  {
    if b == [] {
      assert s + b == s;
    } else {
      var n := |b| - 1;
      assert b[n] in b && forall c <- b[..n] :: c in b;
      TrimRightSpaces(s, b[..n]);
      assert (s + b)[..|s + b| - 1] == s + b[..n];
    }
  }

  lemma TrimAround(a: Bytes, s: Bytes, b: Bytes)
    requires Spaces(a) && Solid(s) && s != [] && Spaces(b)
    ensures TrimSpace(a + (s + b)) == s
  {
    assert s[0] in s && s[|s| - 1] in s && (s + b)[0] == s[0];
    TrimLeftSpaces(a, s + b);
    TrimRightSpaces(s, b);
  }

  /** No colon or bracket in it. */
  predicate NoPort(s: Bytes) { ':' !in s && '[' !in s && ']' !in s }

  lemma SplitBare(h: Bytes)
    requires NoPort(h)
    ensures SplitHostPort(h) == None
  {}

  lemma SplitWithPort(h: Bytes, port: Bytes)
    requires NoPort(h) && NoPort(port)
    ensures SplitHostPort(h + (":" + port)) == Some(h)
  {
    var s, n := h + (":" + port), |h|;
    assert s[n] == ':' && s[..n] == h;
    assert forall k :: n < k < |s| ==> s[k] == port[k - n - 1] && s[k] in port;
    assert LastIndex(s, ':') == n;
    assert s[0] == if h == [] then ':' else h[0];
    assert s[0] != '[' by { if h != [] { assert h[0] in h; } }
    assert '[' !in s && ']' !in s by { assert forall c <- s :: c in h || c == ':' || c in port; }
  }

  lemma {:induction false} FirstIs(s: Bytes, c: char, n: nat)
    requires n < |s| && s[n] == c && c !in s[..n]
    ensures FirstIndex(s, c) == n
  {
    if n > 0 {
      assert s[0] == s[..n][0] && s[1..][..n - 1] == s[..n][1..];
      FirstIs(s[1..], c, n - 1);
    }
  }

  lemma SplitBracketed(h: Bytes, port: Bytes)
    requires '[' !in h && ']' !in h && NoPort(port)
    ensures SplitHostPort("[" + h + "]:" + port) == Some(h)
  {
    var s, n := "[" + h + "]:" + port, |h|;
    assert s[n + 1] == ']' && s[n + 2] == ':' && s[1..n + 1] == h;
    assert s[1..] == h + ("]:" + port) && s[n + 2..] == ":" + port;
    assert forall k :: n + 2 < k < |s| ==> s[k] == port[k - n - 3] && s[k] in port;
    assert LastIndex(s, ':') == n + 2;
    assert ']' !in s[..n + 1] by { assert s[..n + 1] == "[" + h; }
    FirstIs(s, ']', n + 1);
  }

  /** How a host can be written: with its port or without, in brackets or not, with a final dot or without. */
  datatype Spelling = Spelling(dot: bool, port: Option<Bytes>, bracketed: bool, before: Bytes, after: Bytes)
  {
    predicate Fits(name: Bytes) {
      && name != [] && name[|name| - 1] != '.' && Solid(name) && '[' !in name && ']' !in name
      && (!bracketed ==> ':' !in name) && (bracketed ==> port.Some?)
      && (port.Some? ==> NoPort(port.value) && Solid(port.value))
      && Spaces(before) && Spaces(after)
    }

    function Host(name: Bytes): Bytes { if dot then name + "." else name }

    function Core(name: Bytes): Bytes {
      var h := Host(name);
      if port.None? then h else if bracketed then "[" + h + "]:" + port.value else h + (":" + port.value)
    }

    function Written(name: Bytes): Bytes { before + (Core(name) + after) }
  }

  lemma CoreSolid(w: Spelling, name: Bytes)
    requires w.Fits(name)
    ensures w.Core(name) != [] && Solid(w.Core(name))
  {
    var h := w.Host(name);
    assert forall c <- h :: c in name || c == '.';
    if w.port.Some? {
      assert forall c <- w.Core(name) :: c in h || c in w.port.value || c == ':' || c == '[' || c == ']';
    }
  }

  lemma CoreSplits(w: Spelling, name: Bytes)
    requires w.Fits(name)
    ensures SplitHostPort(w.Core(name)) == if w.port.Some? then Some(w.Host(name)) else None
  {
    var h := w.Host(name);
    assert forall c <- h :: c in name || c == '.';
    if w.port.None? { SplitBare(h); }
    else if w.bracketed { SplitBracketed(h, w.port.value); }
    else { SplitWithPort(h, w.port.value); }
  }

  /** Every spelling of a host is normalised to its name in lower case: the white space around it, the port, the
      brackets of an address with its port and one final dot do not matter. */
  lemma NormalizeReads(w: Spelling, name: Bytes)
    requires w.Fits(name)
    ensures Normalize(w.Written(name)) == ToLower(name)
  {
    CoreSolid(w, name);
    TrimAround(w.before, w.Core(name), w.after);
    CoreSplits(w, name);
    var h := w.Host(name);
    assert TrimDot(h) == name by { if w.dot { assert h[..|h| - 1] == name; } }
  }

  // ---- Patterns ----

  /** A wildcard covers what ends in a dot and its suffix, and so never the suffix itself. */
  lemma CoversMeans(suffix: Bytes, h: Bytes)
    ensures Covers(suffix, h) <==> exists p: Bytes :: h == p + "." + suffix
    ensures !Covers(suffix, suffix)
  {
    var t := "." + suffix;
    if Covers(suffix, h) {
      var p := h[..|h| - |t|];
      assert h == p + h[|h| - |t|..];
      assert h == p + "." + suffix;
    }
    if p: Bytes :| h == p + "." + suffix {
      assert h == p + t && h[|p|..] == t;
    }
  }

  /** A host or suffix as configured. */
  predicate Name(s: Bytes) { s != [] && s[|s| - 1] != '.' && Solid(s) && NoPort(s) }

  lemma NameReads(s: Bytes)
    requires Name(s)
    ensures Normalize(s) == ToLower(s)
  {
    var w := Spelling(false, None, false, [], []);
    NormalizeReads(w, s);
    assert w.Written(s) == s by { assert [] + (s + []) == s; }
  }

  lemma {:induction false} LowerSplit(a: Bytes, b: Bytes)
    ensures ToLower(a + b) == ToLower(a) + ToLower(b)
  {}

  /** A pattern `*.suffix` takes every host below the suffix, in any spelling and any case, and not the suffix
      itself. */
  lemma WildcardTakes<V>(suffix: Bytes, below: Bytes, v: V, w: Spelling)
    requires Name(suffix) && w.Fits(below + "." + suffix) && w.Fits(suffix)
    ensures var es := [Entry("*." + suffix, v)];
      Best(es, w.Written(below + "." + suffix)) == Some(v) && Best(es, w.Written(suffix)) == None
  {
    var p := "*." + suffix;
    assert p[2..] == suffix && p != "*" && "*." <= p;
    NameReads(suffix);
    NormalizeReads(w, below + "." + suffix);
    NormalizeReads(w, suffix);
    LowerSplit(below + ".", suffix);
    LowerSplit(below, ".");
    assert ToLower(".") == ".";
    CoversMeans(ToLower(suffix), ToLower(below + "." + suffix));
    CoversMeans(ToLower(suffix), ToLower(suffix));
    OneEntry(Entry(p, v), w.Written(below + "." + suffix));
    OneEntry(Entry(p, v), w.Written(suffix));
  }

  lemma OneEntry<V>(e: Entry<V>, host: Bytes)
    ensures Best([e], host) ==
      match Classify(e.pattern) {
        case Default => Some(e.value)
        case Exact(h) => if h == Normalize(host) then Some(e.value) else None
        case Wild(s) => if Covers(s, Normalize(host)) then Some(e.value) else None
      }
  {
    var es := [e];
    assert es[..0] == [];
    assert Longest(es[..0], Normalize(host)) == None;
    assert LastOf(es[..0], Exact(Normalize(host))) == None && LastOf(es[..0], Default) == None;
    assert LastOf(es, Default) == if Classify(e.pattern).Default? then Some(e.value) else None;
    assert LastOf(es, Exact(Normalize(host))) ==
           if Classify(e.pattern) == Exact(Normalize(host)) then Some(e.value) else None;
  }

  /** An exact pattern takes its host in any spelling and any case, and no other. */
  lemma ExactTakes<V>(name: Bytes, other: Bytes, v: V, w: Spelling)
    requires Name(name) && '*' !in name && w.Fits(other)
    ensures Best([Entry(name, v)], w.Written(other)) == if EqualFold(name, other) then Some(v) else None
  {
    assert name != "*" && !("*." <= name) by { assert name[0] in name; }
    NameReads(name);
    NormalizeReads(w, other);
    OneEntry(Entry(name, v), w.Written(other));
    LowerIsFold(name, other);
  }

  lemma LowerIsFold(a: Bytes, b: Bytes)
    ensures ToLower(a) == ToLower(b) <==> EqualFold(a, b)
  {
    if ToLower(a) == ToLower(b) {
      forall k | 0 <= k < |a| ensures Lower(a[k]) == Lower(b[k]) { assert ToLower(a)[k] == ToLower(b)[k]; }
    }
  }

  /** Which entry decides: one for this very host before any wildcard, then the longest wildcard that covers it, then
      the default; a host is unknown exactly if it has none of them. */
  lemma BestMeans<V>(es: seq<Entry<V>>, host: Bytes)
    ensures var h := Normalize(host);
      var exact := exists e <- es :: Classify(e.pattern) == Exact(h);
      var wild := exists e <- es :: Classify(e.pattern).Wild? && Covers(Classify(e.pattern).suffix, h);
      match Best(es, host)
      case None => !exact && !wild && forall e <- es :: e.pattern != "*"
      case Some(v) =>
        exists e <- es :: e.value == v && (
          if exact then Classify(e.pattern) == Exact(h)
          else if wild then
            && Classify(e.pattern).Wild? && Covers(Classify(e.pattern).suffix, h)
            && forall f <- es | Classify(f.pattern).Wild? && Covers(Classify(f.pattern).suffix, h) ::
                 |Classify(f.pattern).suffix| <= |Classify(e.pattern).suffix|
          else e.pattern == "*")
  {
    var h := Normalize(host);
    LastOfIsMember(es, Exact(h));
    LastOfIsMember(es, Default);
    LongestIsLongest(es, h);
  }
}

/** Host routing: `Normalize`, `Build` and `Match`. The reference is `Best`, which looks at the
    entries as configured, without an index and without sorting. */
module Route {
  import opened Basics
  import opened Bytes
  import opened Options

  // ---- Normalize ----

  function LastIndex(s: Bytes, c: char): (r: int)
    ensures -1 <= r < |s| && (r >= 0 ==> s[r] == c)
    ensures forall k :: r < k < |s| ==> s[k] != c
  {
    if s == [] then -1
    else if s[|s| - 1] == c then |s| - 1
    else
      LastIndex(s[..|s| - 1], c)
  }

  function FirstIndex(s: Bytes, c: char): (r: int)
    ensures -1 <= r < |s| && (r >= 0 ==> s[r] == c)
  {
    if s == [] then -1
    else if s[0] == c then 0
    else var r := FirstIndex(s[1..], c); if r < 0 then -1 else r + 1
  }

  /** The host of `host:port`, `[host]:port`, or None where `net.SplitHostPort` reports an error. */
  function SplitHostPort(s: Bytes): Option<Bytes> {
    var i := LastIndex(s, ':');
    if i < 0 then None
    else if s[0] == '[' then
      var end := FirstIndex(s, ']');
      if end < 0 || end + 1 != i || '[' in s[1..] || ']' in s[end + 1..] then None else Some(s[1..end])
    else if ':' in s[..i] || '[' in s || ']' in s then None
    else Some(s[..i])
  }

  function ToLower(s: Bytes): (r: Bytes)
    ensures |r| == |s| && forall k :: 0 <= k < |s| ==> r[k] == Lower(s[k])
  {
    if s == [] then [] else [Lower(s[0])] + ToLower(s[1..])
  }

  function TrimDot(s: Bytes): Bytes { if s != [] && s[|s| - 1] == '.' then s[..|s| - 1] else s }

  function Normalize(host: Bytes): Bytes {
    var h := TrimSpace(host);
    var bare := match SplitHostPort(h) { case Some(b) => b case None => h };
    ToLower(TrimDot(bare))
  }

  // ---- Entries ----

  datatype Entry<V> = Entry(pattern: Bytes, value: V)
  datatype Pattern = Default | Wild(suffix: Bytes) | Exact(host: Bytes)

  function Classify(p: Bytes): Pattern {
    if p == "*" then Default
    else if "*." <= p then Wild(Normalize(p[2..]))
    else Exact(Normalize(p))
  }

  predicate HasSuffix(s: Bytes, t: Bytes) { |t| <= |s| && s[|s| - |t|..] == t }
  predicate Covers(suffix: Bytes, h: Bytes) { HasSuffix(h, "." + suffix) }

  // ---- The reference ----

  /** The value of the last entry with this very pattern. */
  function LastOf<V>(es: seq<Entry<V>>, p: Pattern): Option<V> {
    if es == [] then None
    else
      var e := es[|es| - 1];
      if Classify(e.pattern) == p then Some(e.value) else LastOf(es[..|es| - 1], p)
  }

  /** The longest wildcard suffix that covers `h`, with the value of the first entry that has it. */
  function Longest<V>(es: seq<Entry<V>>, h: Bytes): Option<(Bytes, V)> {
    if es == [] then None
    else
      var best, e := Longest(es[..|es| - 1], h), es[|es| - 1];
      match Classify(e.pattern)
      case Wild(s) => if Covers(s, h) && (best.None? || |s| > |best.value.0|) then Some((s, e.value)) else best
      case _ => best
  }

  /** Exact host, else longest wildcard, else the default. */
  function Best<V>(es: seq<Entry<V>>, host: Bytes): Option<V> {
    var h := Normalize(host);
    match LastOf(es, Exact(h))
    case Some(v) => Some(v)
    case None =>
      match Longest(es, h)
      case Some((_, v)) => Some(v)
      case None => LastOf(es, Default)
  }

  // ---- Build and Match ----

  datatype Matcher<V> = Matcher(exact: map<Bytes, V>, wild: seq<(Bytes, V)>, def: Option<V>)

  /** Where a stable sort by descending suffix length puts one more wildcard. */
  function Insert<V>(w: (Bytes, V), ws: seq<(Bytes, V)>): seq<(Bytes, V)> {
    if ws == [] then [w]
    else if |ws[0].0| >= |w.0| then [ws[0]] + Insert(w, ws[1..])
    else [w] + ws
  }

  function StableSort<V>(ws: seq<(Bytes, V)>): seq<(Bytes, V)> {
    if ws == [] then [] else Insert(ws[|ws| - 1], StableSort(ws[..|ws| - 1]))
  }

  predicate Descending<V>(ws: seq<(Bytes, V)>) {
    forall i, j :: 0 <= i < j < |ws| ==> |ws[i].0| >= |ws[j].0|
  }

  lemma {:induction false} InsertKeeps<V>(w: (Bytes, V), ws: seq<(Bytes, V)>)
    ensures multiset(Insert(w, ws)) == multiset{w} + multiset(ws)
  {
    if ws != [] {
      assert ws == [ws[0]] + ws[1..];
      if |ws[0].0| >= |w.0| { InsertKeeps(w, ws[1..]); }
    }
  }

  lemma {:induction false} InsertBound<V>(w: (Bytes, V), ws: seq<(Bytes, V)>, n: nat)
    requires |w.0| <= n && forall k :: 0 <= k < |ws| ==> |ws[k].0| <= n
    ensures forall k :: 0 <= k < |Insert(w, ws)| ==> |Insert(w, ws)[k].0| <= n
  {
    if ws != [] && |ws[0].0| >= |w.0| { InsertBound(w, ws[1..], n); }
  }

  lemma {:induction false} InsertSorted<V>(w: (Bytes, V), ws: seq<(Bytes, V)>)
    requires Descending(ws)
    ensures Descending(Insert(w, ws))
  {
    if ws != [] && |ws[0].0| >= |w.0| {
      InsertSorted(w, ws[1..]);
      InsertBound(w, ws[1..], |ws[0].0|);
    }
  }

  /** The wildcards whose suffix has length `n`, in order. */
  function OfLength<V>(ws: seq<(Bytes, V)>, n: nat): seq<(Bytes, V)> {
    if ws == [] then [] else (if |ws[0].0| == n then [ws[0]] else []) + OfLength(ws[1..], n)
  }

  lemma {:induction false} OfLengthLast<V>(ws: seq<(Bytes, V)>, w: (Bytes, V), n: nat)
    ensures OfLength(ws + [w], n) == OfLength(ws, n) + if |w.0| == n then [w] else []
  {
    if ws == [] {
      assert ws + [w] == [w] && [w][1..] == [];
    } else {
      OfLengthLast(ws[1..], w, n);
      assert (ws + [w])[1..] == ws[1..] + [w];
      Assoc(if |ws[0].0| == n then [ws[0]] else [], OfLength(ws[1..], n), if |w.0| == n then [w] else []);
    }
  }

  lemma {:induction false} NoneOfLength<V>(ws: seq<(Bytes, V)>, n: nat)
    requires forall k :: 0 <= k < |ws| ==> |ws[k].0| != n
    ensures OfLength(ws, n) == []
  {
    if ws != [] { NoneOfLength(ws[1..], n); }
  }

  /** Among equals the new one comes last. */
  lemma {:induction false} InsertStable<V>(w: (Bytes, V), ws: seq<(Bytes, V)>, n: nat)
    requires Descending(ws)
    ensures OfLength(Insert(w, ws), n) == OfLength(ws, n) + if |w.0| == n then [w] else []
  {
    var last := if |w.0| == n then [w] else [];
    if ws == [] {
      assert [w][1..] == [];
    } else if |ws[0].0| >= |w.0| {
      InsertStable(w, ws[1..], n);
      assert Insert(w, ws)[1..] == Insert(w, ws[1..]);
      Assoc(if |ws[0].0| == n then [ws[0]] else [], OfLength(ws[1..], n), last);
    } else {
      assert ([w] + ws)[1..] == ws;
      if |w.0| == n { NoneOfLength(ws, n); }
    }
  }

  /** `StableSort` is a stable sort: same wildcards, longest first, those of any one length in their order. */
  lemma {:induction false} StableSortSorts<V>(ws: seq<(Bytes, V)>)
    ensures Descending(StableSort(ws)) && multiset(StableSort(ws)) == multiset(ws)
    ensures forall n: nat :: OfLength(StableSort(ws), n) == OfLength(ws, n)
  {
    if ws != [] {
      var front, last := ws[..|ws| - 1], ws[|ws| - 1];
      StableSortSorts(front);
      InsertSorted(last, StableSort(front));
      InsertKeeps(last, StableSort(front));
      assert ws == front + [last];
      forall n: nat ensures OfLength(StableSort(ws), n) == OfLength(ws, n) {
        InsertStable(last, StableSort(front), n);
        OfLengthLast(front, last, n);
      }
    }
  }

  /** The first wildcard of the list that covers `h`. */
  function FirstCover<V>(ws: seq<(Bytes, V)>, h: Bytes): (r: Option<(Bytes, V)>)
    ensures r.Some? ==> r.value in ws && Covers(r.value.0, h)
  {
    if ws == [] then None else if Covers(ws[0].0, h) then Some(ws[0]) else FirstCover(ws[1..], h)
  }

  function Better<V>(best: Option<(Bytes, V)>, w: (Bytes, V), h: Bytes): Option<(Bytes, V)> {
    if Covers(w.0, h) && (best.None? || |w.0| > |best.value.0|) then Some(w) else best
  }

  lemma {:induction false} FirstCoverInsert<V>(w: (Bytes, V), ws: seq<(Bytes, V)>, h: Bytes)
    requires Descending(ws)
    ensures FirstCover(Insert(w, ws), h) == Better(FirstCover(ws, h), w, h)
  {
    if ws == [] {
      assert FirstCover([w], h) == Better(None, w, h);
    } else if |ws[0].0| >= |w.0| {
      FirstCoverInsert(w, ws[1..], h);
      assert Insert(w, ws)[1..] == Insert(w, ws[1..]);
    } else {
      assert ([w] + ws)[1..] == ws;
      if FirstCover(ws, h).Some? {
        var k :| 0 <= k < |ws| && ws[k] == FirstCover(ws, h).value;
        assert |ws[k].0| <= |ws[0].0|;
      }
    }
  }

  function Wilds<V>(es: seq<Entry<V>>): seq<(Bytes, V)> {
    if es == [] then []
    else
      var e := es[|es| - 1];
      match Classify(e.pattern)
      case Wild(s) => Wilds(es[..|es| - 1]) + [(s, e.value)]
      case _ => Wilds(es[..|es| - 1])
  }

  /** Scanning the sorted wildcards finds the longest one. */
  lemma {:induction false} SortedScan<V>(es: seq<Entry<V>>, h: Bytes)
    ensures FirstCover(StableSort(Wilds(es)), h) == Longest(es, h)
  {
    if es != [] {
      var front, e := es[..|es| - 1], es[|es| - 1];
      SortedScan(front, h);
      if Classify(e.pattern).Wild? {
        var ws := Wilds(front);
        var w := (Classify(e.pattern).suffix, e.value);
        assert (ws + [w])[..|ws|] == ws;
        StableSortSorts(ws);
        FirstCoverInsert(w, StableSort(ws), h);
      }
    }
  }

  ghost predicate Represents<V>(m: Matcher<V>, es: seq<Entry<V>>) {
    && (forall h: Bytes :: (if h in m.exact then Some(m.exact[h]) else None) == LastOf(es, Exact(h)))
    && m.wild == StableSort(Wilds(es))
    && m.def == LastOf(es, Default)
  }

  method Build<V>(es: seq<Entry<V>>) returns (m: Matcher<V>)
    ensures Represents(m, es)
  {
    var exact: map<Bytes, V>, wild: seq<(Bytes, V)>, def: Option<V> := map[], [], None;
    for i := 0 to |es|
      invariant forall h: Bytes :: (if h in exact then Some(exact[h]) else None) == LastOf(es[..i], Exact(h))
      invariant wild == Wilds(es[..i])
      invariant def == LastOf(es[..i], Default)
    {
      var e := es[i];
      assert es[..i + 1][..i] == es[..i] && es[..i + 1][i] == e;
      if e.pattern == "*" {
        def := Some(e.value);
      } else if "*." <= e.pattern {
        wild := wild + [(Normalize(e.pattern[2..]), e.value)];
      } else {
        exact := exact[Normalize(e.pattern) := e.value];
      }
    }
    assert es[..|es|] == es;
    m := Matcher(exact, StableSort(wild), def);
  }

  /** The lookup returns what the reference returns. */
  method Match<V>(m: Matcher<V>, ghost es: seq<Entry<V>>, host: Bytes) returns (r: Option<V>)
    requires Represents(m, es)
    ensures r == Best(es, host)
  {
    var h := Normalize(host);
    assert (if h in m.exact then Some(m.exact[h]) else None) == LastOf(es, Exact(h));
    if h in m.exact { return Some(m.exact[h]); }
    SortedScan(es, h);
    for i := 0 to |m.wild|
      invariant FirstCover(m.wild, h) == FirstCover(m.wild[i..], h)
    {
      assert m.wild[i..][1..] == m.wild[i + 1..];
      if Covers(m.wild[i].0, h) { return Some(m.wild[i].1); }
    }
    return m.def;
  }

  // ---- The order of the entries does not matter ----

  /** Patterns that normalize alike carry the same value; distinct patterns do. */
  ghost predicate Consistent<V(!new)>(es: seq<Entry<V>>) {
    forall e, f :: e in es && f in es && Classify(e.pattern) == Classify(f.pattern) ==> e.value == f.value
  }

  ghost predicate SameEntries<V(!new)>(es: seq<Entry<V>>, fs: seq<Entry<V>>) {
    forall e :: e in es <==> e in fs
  }

  ghost predicate IsLongest<V>(es: seq<Entry<V>>, h: Bytes, r: Option<(Bytes, V)>) {
    match r
    case None => forall e <- es :: Classify(e.pattern).Wild? ==> !Covers(Classify(e.pattern).suffix, h)
    case Some((s, v)) =>
      && Covers(s, h)
      && (exists e <- es :: Classify(e.pattern) == Wild(s) && e.value == v)
      && forall e <- es | Classify(e.pattern).Wild? && Covers(Classify(e.pattern).suffix, h) ::
           |Classify(e.pattern).suffix| <= |s|
  }

  lemma {:induction false} LongestIsLongest<V>(es: seq<Entry<V>>, h: Bytes)
    ensures IsLongest(es, h, Longest(es, h))
  {
    if es != [] {
      var front, last := es[..|es| - 1], es[|es| - 1];
      LongestIsLongest(front, h);
      assert forall e :: e in es <==> e in front || e == last;
      var best := Longest(front, h);
      if best.Some? {
        var e :| e in front && Classify(e.pattern) == Wild(best.value.0) && e.value == best.value.1;
        assert e in es;
      }
    }
  }

  lemma {:induction false} LastOfIsMember<V>(es: seq<Entry<V>>, p: Pattern)
    ensures LastOf(es, p).Some? ==> exists e <- es :: Classify(e.pattern) == p && e.value == LastOf(es, p).value
    ensures LastOf(es, p).None? ==> forall e <- es :: Classify(e.pattern) != p
  {
    if es != [] {
      var front, last := es[..|es| - 1], es[|es| - 1];
      LastOfIsMember(front, p);
      assert es == front + [last];
      if Classify(last.pattern) == p {
        assert last in es;
      } else if LastOf(front, p).Some? {
        var e :| e in front && Classify(e.pattern) == p && e.value == LastOf(front, p).value;
        assert e in es;
      }
    }
  }

  lemma LastOfAnyOrder<V(!new)>(es: seq<Entry<V>>, fs: seq<Entry<V>>, p: Pattern)
    requires Consistent(es) && SameEntries(es, fs)
    ensures LastOf(es, p) == LastOf(fs, p)
  {
    LastOfIsMember(es, p);
    LastOfIsMember(fs, p);
  }

  /** Suffixes of one host with the same length are the same. */
  lemma SameCover(s: Bytes, t: Bytes, h: Bytes)
    requires Covers(s, h) && Covers(t, h) && |s| == |t|
    ensures s == t
  {
    assert ("." + s)[1..] == s && ("." + t)[1..] == t;
  }

  lemma LongestUnique<V(!new)>(es: seq<Entry<V>>, fs: seq<Entry<V>>, h: Bytes, a: (Bytes, V), b: (Bytes, V))
    requires Consistent(es) && SameEntries(es, fs)
    requires IsLongest(es, h, Some(a)) && IsLongest(fs, h, Some(b))
    ensures a == b
  {
    var e :| e in es && Classify(e.pattern) == Wild(a.0) && e.value == a.1;
    var f :| f in fs && Classify(f.pattern) == Wild(b.0) && f.value == b.1;
    assert e in fs && f in es;
    SameCover(a.0, b.0, h);
  }

  lemma LongestAnyOrder<V(!new)>(es: seq<Entry<V>>, fs: seq<Entry<V>>, h: Bytes)
    requires Consistent(es) && SameEntries(es, fs)
    ensures Longest(es, h) == Longest(fs, h)
  {
    LongestIsLongest(es, h);
    LongestIsLongest(fs, h);
    match (Longest(es, h), Longest(fs, h))
    case (Some(a), Some(b)) => LongestUnique(es, fs, h, a, b);
    case _ =>
  }

  /** Any order of the same entries routes every host the same way. */
  lemma AnyOrder<V(!new)>(es: seq<Entry<V>>, fs: seq<Entry<V>>, host: Bytes)
    requires Consistent(es) && SameEntries(es, fs)
    ensures Best(es, host) == Best(fs, host)
  {
    var h := Normalize(host);
    LastOfAnyOrder(es, fs, Exact(h));
    LongestAnyOrder(es, fs, h);
    LastOfAnyOrder(es, fs, Default);
  }
}

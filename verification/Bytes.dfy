/** Byte strings and the few text operations the edge uses on them. A byte is a `char`. */
module Bytes {
  import opened Basics

  type Bytes = seq<char>

  const CRLF: Bytes := "\r\n"

  /** The limit of request and response heads. */
  const MAX_HEADER_BYTES: nat := 0x10000

  function Concat(cs: seq<Bytes>): Bytes { if cs == [] then [] else cs[0] + Concat(cs[1..]) }

  lemma {:induction false} ConcatSplit(a: seq<Bytes>, b: seq<Bytes>)
    ensures Concat(a + b) == Concat(a) + Concat(b)
  {
    if a == [] {
      assert a + b == b;
    } else {
      ConcatSplit(a[1..], b);
      assert (a + b)[0] == a[0] && (a + b)[1..] == a[1..] + b;
      Assoc(a[0], Concat(a[1..]), Concat(b));
    }
  }

  /** A stream, one byte at a time. */
  function Singles(s: Bytes): (cs: seq<Bytes>)
    ensures Concat(cs) == s && |cs| == |s| && forall k :: 0 <= k < |cs| ==> |cs[k]| == 1
  {
    if s == [] then [] else [[s[0]]] + Singles(s[1..])
  }

  /** Where the first CRLF starts, or -1. */
  function IndexCRLF(s: Bytes): (r: int)
    ensures -1 <= r <= |s| - 2 || r == -1
    ensures r >= 0 ==> s[r] == '\r' && s[r + 1] == '\n'
    ensures forall j :: 0 <= j < |s| - 1 && (r < 0 || j < r) ==> !(s[j] == '\r' && s[j + 1] == '\n')
  {
    if |s| < 2 then -1
    else if s[0] == '\r' && s[1] == '\n' then 0
    else
      var r := IndexCRLF(s[1..]);
      assert forall j :: 1 <= j < |s| - 1 ==> s[j] == s[1..][j - 1] && s[j + 1] == s[1..][j];
      if r < 0 then -1 else r + 1
  }

  predicate IsSpace(c: char) { c == ' ' || c == '\t' || c == '\n' || c == '\r' || c == 11 as char || c == 12 as char }

  function TrimLeft(s: Bytes): Bytes { if s != [] && IsSpace(s[0]) then TrimLeft(s[1..]) else s }
  function TrimRight(s: Bytes): Bytes { if s != [] && IsSpace(s[|s| - 1]) then TrimRight(s[..|s| - 1]) else s }
  function TrimSpace(s: Bytes): Bytes { TrimRight(TrimLeft(s)) }

  function Lower(c: char): char { if 'A' <= c <= 'Z' then (c as int + 32) as char else c }

  predicate EqualFold(a: Bytes, b: Bytes) {
    |a| == |b| && forall k :: 0 <= k < |a| ==> Lower(a[k]) == Lower(b[k])
  }

  /** The run of non-space bytes at the start of `s`. */
  function Word(s: Bytes): (w: Bytes)
    ensures |w| <= |s| && w == s[..|w|]
    ensures s != [] && !IsSpace(s[0]) ==> w != []
  {
    if s == [] || IsSpace(s[0]) then [] else [s[0]] + Word(s[1..])
  }

  /** The words of `s`. */
  function Fields(s: Bytes): seq<Bytes>
    decreases |s|
  {
    if s == [] then []
    else if IsSpace(s[0]) then Fields(s[1..])
    else [Word(s)] + Fields(s[|Word(s)|..])
  }

  lemma {:induction false} WordBeforeSpace(s: Bytes, c: char)
    requires IsSpace(c)
    ensures Word(s + [c]) == Word(s)
  {
    if s != [] && !IsSpace(s[0]) {
      WordBeforeSpace(s[1..], c);
      assert (s + [c])[1..] == s[1..] + [c];
    }
  }

  /** A space at the end adds no word. */
  lemma {:induction false} FieldsBeforeSpace(s: Bytes, c: char)
    requires IsSpace(c)
    ensures Fields(s + [c]) == Fields(s)
    decreases |s|
  {
    if s == [] {
      assert (s + [c])[1..] == [];
    } else if IsSpace(s[0]) {
      assert (s + [c])[1..] == s[1..] + [c];
      FieldsBeforeSpace(s[1..], c);
    } else {
      WordBeforeSpace(s, c);
      var n := |Word(s)|;
      assert (s + [c])[n..] == s[n..] + [c];
      FieldsBeforeSpace(s[n..], c);
    }
  }

  /** No line feed in it. */
  predicate Clean(l: Bytes) { '\n' !in l }

  lemma CleanIndex(l: Bytes, after: Bytes)
    requires Clean(l)
    ensures IndexCRLF(l) == -1 && IndexCRLF(l + (CRLF + after)) == |l|
  {
    var s := l + (CRLF + after);
    assert s[|l|] == '\r' && s[|l| + 1] == '\n';
    assert forall k :: 0 <= k < |l| ==> s[k] == l[k] && l[k] in l;
  }
}

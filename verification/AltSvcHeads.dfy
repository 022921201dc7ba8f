/** What the Alt-Svc edit means for a head: told by fields, not by lines, and shown to be
    idempotent and to leave exactly one Alt-Svc field. */
module AltSvcHeads {
  import opened Bytes
  import opened AltSvc

  // ---- By fields ----

  /** How many folded lines `ls` starts with. */
  function FoldedRun(ls: seq<Bytes>): (n: nat)
    ensures n <= |ls|
    ensures forall k :: 0 <= k < n ==> Folded(ls[k])
    ensures n < |ls| ==> !Folded(ls[n])
  {
    if ls == [] || !Folded(ls[0]) then 0 else 1 + FoldedRun(ls[1..])
  }

  /** The fields of a head: each a line and the folded lines that continue it. */
  function FieldsOf(ls: seq<Bytes>): (fs: seq<seq<Bytes>>)
    ensures forall k :: 0 <= k < |fs| ==> fs[k] != []
  {
    if ls == [] then []
    else var n := 1 + FoldedRun(ls[1..]); [ls[..n]] + FieldsOf(ls[n..])
  }

  /** The fields other than Alt-Svc, in order. */
  function OtherFields(fs: seq<seq<Bytes>>): seq<Bytes>
    requires forall k :: 0 <= k < |fs| ==> fs[k] != []
  {
    if fs == [] then [] else (if IsAltSvcField(fs[0][0]) then [] else fs[0]) + OtherFields(fs[1..])
  }

  /** Taking the first line off a run of lines. */
  lemma RunOf(ls: seq<Bytes>, n: nat, after: seq<Bytes>)
    requires n < |ls|
    ensures ls[..n + 1] + after == [ls[0]] + (ls[1..][..n] + after) && ls[n + 1..] == ls[1..][n..]
  {
    assert ls[..n + 1] == [ls[0]] + ls[1..][..n];
  }

  lemma {:induction false} KeptFolded(ls: seq<Bytes>, dropping: bool)
    ensures var n := FoldedRun(ls);
      Kept(ls, dropping) == if dropping then Kept(ls[n..], true) else ls[..n] + Kept(ls[n..], false)
  {
    if ls != [] && Folded(ls[0]) {
      var n := FoldedRun(ls);
      KeptFolded(ls[1..], dropping);
      RunOf(ls, n - 1, Kept(ls[n..], false));
    } else if !dropping {
      assert ls[..0] + Kept(ls, false) == Kept(ls, false);
    }
  }

  /** A field starts a line that is not folded, so what came before it does not matter. */
  lemma KeptFresh(ls: seq<Bytes>)
    requires ls == [] || !Folded(ls[0])
    ensures Kept(ls, true) == Kept(ls, false)
  {}

  lemma KeptField(ls: seq<Bytes>)
    requires ls != []
    ensures var n := 1 + FoldedRun(ls[1..]);
      Kept(ls, false) == if IsAltSvcField(ls[0]) then Kept(ls[n..], false) else ls[..n] + Kept(ls[n..], false)
  {
    var n := FoldedRun(ls[1..]);
    RunOf(ls, n, Kept(ls[n + 1..], false));
    KeptFolded(ls[1..], IsAltSvcField(ls[0]));
    KeptFresh(ls[1..][n..]);
  }

  /** The line-by-line loop drops exactly the Alt-Svc fields, folded lines included, and keeps the others in order. */
  lemma {:induction false} KeptByField(ls: seq<Bytes>)
    ensures Kept(ls, false) == OtherFields(FieldsOf(ls))
    decreases |ls|
  {
    if ls != [] {
      var n := 1 + FoldedRun(ls[1..]);
      KeptField(ls);
      KeptByField(ls[n..]);
      var fs := FieldsOf(ls);
      assert fs[0] == ls[..n] && fs[0][0] == ls[0] && fs[1..] == FieldsOf(ls[n..]);
      assert [] + OtherFields(fs[1..]) == OtherFields(fs[1..]);
    }
  }

  // ---- One Alt-Svc field ----

  function CountAltSvc(ls: seq<Bytes>): nat {
    if ls == [] then 0 else (if IsAltSvcField(ls[0]) then 1 else 0) + CountAltSvc(ls[1..])
  }

  lemma {:induction false} CountLast(ls: seq<Bytes>, l: Bytes)
    ensures CountAltSvc(ls + [l]) == CountAltSvc(ls) + if IsAltSvcField(l) then 1 else 0
  {
    if ls != [] {
      CountLast(ls[1..], l);
      assert (ls + [l])[1..] == ls[1..] + [l];
    }
  }

  lemma {:induction false} KeptHasNone(ls: seq<Bytes>, dropping: bool)
    ensures CountAltSvc(Kept(ls, dropping)) == 0
  {
    if ls != [] {
      KeptHasNone(ls[1..], true);
      KeptHasNone(ls[1..], false);
    }
  }

  /** Lines without an Alt-Svc field stay as they are, up to one that is added. */
  lemma {:induction false} KeptAll(ls: seq<Bytes>, l: Bytes)
    requires CountAltSvc(ls) == 0 && IsAltSvcField(l)
    ensures Kept(ls + [l], false) == ls
  {
    if ls == [] {
      assert Kept([l], false) == Kept([], true);
    } else {
      KeptAll(ls[1..], l);
      assert (ls + [l])[1..] == ls[1..] + [l];
    }
  }

  lemma {:induction false} BeforeColonOf(name: Bytes, after: Bytes)
    requires ':' !in name
    ensures BeforeColon(name + ":" + after) == name
  {
    if name != [] {
      BeforeColonOf(name[1..], after);
      assert (name + ":" + after)[1..] == name[1..] + ":" + after;
    }
  }

  lemma AddedLineIsAltSvc(value: Bytes)
    ensures IsAltSvcField(AltSvcLine(value))
  {
    var name := "Alt-Svc";
    assert AltSvcLine(value) == name + ":" + (" " + value);
    assert AltSvcLine(value)[7] == ':';
    BeforeColonOf(name, " " + value);
    assert TrimSpace(name) == name;
    assert Lower('A') == 'a' && Lower('S') == 's';
    assert forall k :: 0 <= k < 7 ==> Lower(name[k]) == Lower("alt-svc"[k]);
  }

  // ---- Heads as bytes ----

  predicate CleanLines(ls: seq<Bytes>) { forall k :: 0 <= k < |ls| ==> ls[k] != [] && Clean(ls[k]) }

  /** A line feed at `i` ends a CRLF that is followed by the start of a non-empty line. */
  predicate SeamAt(h: Bytes, i: nat)
    requires i < |h|
  {
    h[i] == '\n' ==>
      && 0 < i < |h| - 1 && h[i - 1] == '\r' && h[i + 1] != '\n'
      && (i + 2 < |h| && h[i + 1] == '\r' ==> h[i + 2] != '\n')
  }

  predicate Seamless(h: Bytes) { forall i: nat :: i < |h| ==> SeamAt(h, i) }

  /** A head found with CRLF line breaks is seamless, and a seamless head is found where it ends. */
  lemma MarkSeamless(s: Bytes)
    requires Mark(s).Head? && Mark(s).crlf
    ensures Seamless(s[..Mark(s).end])
  {
    var n := Mark(s).end;
    assert FirstBlank(s, 0) == n + 1;
    var b, h := s[..n + 2], s[..n];
    forall i: nat | i < n ensures SeamAt(h, i) {
      assert h[i] == s[i] && b[i] == s[i];
      if s[i] == '\n' {
        assert !Blank(s, i);
        assert i + 1 < n ==> h[i + 1] == s[i + 1];
        assert i + 2 < n ==> h[i + 2] == s[i + 2];
        assert i > 0 ==> h[i - 1] == s[i - 1] && b[i - 1] == s[i - 1];
      }
    }
  }

  lemma SeamlessMark(h: Bytes, after: Bytes)
    requires Seamless(h)
    ensures Mark(h + ("\r\n\r\n" + after)) == Head(|h|, true)
  {
    var s, n := h + ("\r\n\r\n" + after), |h|;
    assert s[n] == '\r' && s[n + 1] == '\n' && s[n + 2] == '\r' && s[n + 3] == '\n';
    assert forall i :: 0 <= i < n ==> s[i] == h[i];
    forall i: nat | i <= n ensures !Blank(s, i) { if i < n { assert SeamAt(h, i); } }
    assert Blank(s, n + 1);
    NoBareLF(h, s);
  }

  lemma NoBareLF(h: Bytes, s: Bytes)
    requires Seamless(h) && |s| >= |h| + 2 && s[..|h|] == h && s[|h|] == '\r' && s[|h| + 1] == '\n'
    ensures !HasBareLF(s[..|h| + 2])
  {
    var b := s[..|h| + 2];
    forall i | 0 <= i < |b| && b[i] == '\n' ensures i > 0 && b[i - 1] == '\r' {
      if i < |h| {
        assert SeamAt(h, i) && h[i] == s[..|h|][i] && h[i - 1] == s[..|h|][i - 1];
      }
    }
  }

  /** A field section: no empty line in it. */
  predicate Section(x: Bytes) { x != [] && Seamless(x) && !(CRLF <= x) }

  /** What follows a line break of seamless bytes. */
  lemma SeamlessRest(x: Bytes, i: nat)
    requires Seamless(x) && i + 1 < |x| && x[i + 1] == '\n'
    ensures Section(x[i + 2..])
  {
    var n := i + 2;
    var y := x[n..];
    assert SeamAt(x, i + 1);
    forall k: nat | k < |y| ensures SeamAt(y, k) {
      assert SeamAt(x, k + n) && y[k] == x[k + n];
    }
  }

  /** Cutting the first line off seamless bytes. */
  lemma SeamlessCut(x: Bytes)
    requires Seamless(x)
    ensures var i := IndexCRLF(x);
      && (i < 0 ==> Clean(x))
      && (i >= 0 ==> Clean(x[..i]) && Section(x[i + 2..]) && x == x[..i] + (CRLF + x[i + 2..]))
  {
    var i := IndexCRLF(x);
    forall k: nat | k < |x| && (i < 0 || k < i) ensures x[k] != '\n' { NoFeed(x, k); }
    if i >= 0 {
      SeamlessRest(x, i);
      CutAt(x, i);
    }
  }

  lemma NoFeed(x: Bytes, k: nat)
    requires Seamless(x) && k < |x| && (IndexCRLF(x) < 0 || k < IndexCRLF(x))
    ensures x[k] != '\n'
  {
    assert SeamAt(x, k);
  }

  lemma CutAt(x: Bytes, i: nat)
    requires i + 1 < |x| && x[i] == '\r' && x[i + 1] == '\n'
    ensures x == x[..i] + (CRLF + x[i + 2..])
  {}

  lemma {:induction false} SectionLines(x: Bytes)
    requires Section(x)
    ensures CleanLines(Lines(x)) && Joined(Lines(x)) == CRLF + x
    decreases |x|
  {
    SeamlessCut(x);
    var i := IndexCRLF(x);
    if i < 0 {
      assert Joined([x]) == CRLF + x + Joined([]);
    } else {
      var y := x[i + 2..];
      SectionLines(y);
      assert Lines(x)[1..] == Lines(y);
      assert CRLF + x[..i] + (CRLF + y) == CRLF + (x[..i] + (CRLF + y));
    }
  }

  /** A seamless head is its status line and its field lines, none of which is empty. */
  lemma HeadParts(h: Bytes)
    requires Seamless(h)
    ensures Clean(StatusLine(h)) && CleanLines(Lines(FieldSection(h)))
    ensures h == StatusLine(h) + Joined(Lines(FieldSection(h)))
  {
    SeamlessCut(h);
    if IndexCRLF(h) >= 0 { SectionLines(FieldSection(h)); }
  }

  lemma FirstLineCut(l: Bytes, y: Bytes)
    requires Clean(l) && l != []
    ensures Lines(l) == [l] && Lines(l + (CRLF + y)) == [l] + Lines(y)
  {
    CleanIndex(l, y);
    var x := l + (CRLF + y);
    assert x[..|l|] == l && x[|l| + 2..] == y;
  }

  lemma {:induction false} LinesOfJoined(ls: seq<Bytes>)
    requires ls != [] && CleanLines(ls)
    ensures Joined(ls) == CRLF + Joined(ls)[2..] && Lines(Joined(ls)[2..]) == ls
  {
    if |ls| == 1 {
      assert ls == [ls[0]] && Joined(ls)[2..] == ls[0];
      FirstLineCut(ls[0], []);
    } else {
      LinesOfJoined(ls[1..]);
      var y := Joined(ls[1..])[2..];
      AfterBreak(ls[0], CRLF + y);
      FirstLineCut(ls[0], y);
    }
  }

  lemma AfterBreak(l: Bytes, more: Bytes)
    ensures CRLF + l + more == CRLF + (l + more) && (CRLF + l + more)[2..] == l + more
  {}

  lemma PartsOf(status: Bytes, ls: seq<Bytes>)
    requires Clean(status) && CleanLines(ls)
    ensures var h := status + Joined(ls); StatusLine(h) == status && Lines(FieldSection(h)) == ls
  {
    if ls == [] {
      assert status + Joined(ls) == status;
      CleanIndex(status, []);
    } else {
      LinesOfJoined(ls);
      CleanIndex(status, Joined(ls)[2..]);
    }
  }

  lemma SeamlessLine(h: Bytes, l: Bytes)
    requires Seamless(h) && Clean(l) && l != []
    ensures Seamless(h + CRLF + l)
  {
    var s, n := h + CRLF + l, |h|;
    assert s[n] == '\r' && s[n + 1] == '\n' && s[n + 2] == l[0];
    forall i: nat | i < |s| ensures SeamAt(s, i) {
      if i < n {
        assert SeamAt(h, i) && s[i] == h[i];
      } else if i > n + 1 {
        assert s[i] == l[i - n - 2] && l[i - n - 2] in l;
      }
    }
  }

  lemma {:induction false} SeamlessJoined(status: Bytes, ls: seq<Bytes>)
    requires Clean(status) && CleanLines(ls)
    ensures Seamless(status + Joined(ls))
    decreases |ls|
  {
    if ls == [] {
      assert status + Joined(ls) == status;
    } else {
      var front, last := ls[..|ls| - 1], ls[|ls| - 1];
      assert ls == front + [last];
      SeamlessJoined(status, front);
      JoinedLast(front, last);
      SeamlessLine(status + Joined(front), last);
      assert status + Joined(ls) == status + Joined(front) + CRLF + last;
    }
  }

  lemma {:induction false} FirstLineOf(status: Bytes, after: Bytes)
    requires Clean(status)
    ensures FirstLine(status) == status && FirstLine(status + (CRLF + after)) == status + "\r"
  {
    if status == [] {
      var s := status + (CRLF + after);
      assert s[0] == '\r' && s[1..][0] == '\n';
      assert FirstLine(s) == ['\r'] + FirstLine(s[1..]);
    } else {
      assert status[0] in status;
      assert forall c <- status[1..] :: c in status;
      FirstLineOf(status[1..], after);
      assert (status + (CRLF + after))[1..] == status[1..] + (CRLF + after);
    }
  }

  /** The status code is read off the status line alone. */
  lemma StatusOf(status: Bytes, ls: seq<Bytes>)
    requires Clean(status) && CleanLines(ls)
    ensures StatusCode(status + Joined(ls)) == StatusCode(status)
  {
    FieldsBeforeSpace(status, '\r');
    if ls == [] {
      assert status + Joined(ls) == status;
    } else {
      LinesOfJoined(ls);
      FirstLineOf(status, Joined(ls)[2..]);
    }
  }

  lemma {:induction false} KeptClean(ls: seq<Bytes>, dropping: bool)
    requires CleanLines(ls)
    ensures CleanLines(Kept(ls, dropping))
  {
    if ls != [] {
      KeptClean(ls[1..], true);
      KeptClean(ls[1..], false);
    }
  }

  /** The lines of a head after the edit. */
  function EditedLines(ls: seq<Bytes>, value: Bytes): seq<Bytes> { Kept(ls, false) + [AltSvcLine(value)] }

  lemma EditedClean(h: Bytes, value: Bytes)
    requires Seamless(h) && Clean(value)
    ensures CleanLines(EditedLines(Lines(FieldSection(h)), value))
  {
    HeadParts(h);
    KeptClean(Lines(FieldSection(h)), false);
  }

  lemma EditedBytes(h: Bytes, value: Bytes)
    requires IsFinal(h)
    ensures EditedHead(h, value, true) == StatusLine(h) + Joined(EditedLines(Lines(FieldSection(h)), value))
  {
    JoinedLast(Kept(Lines(FieldSection(h)), false), AltSvcLine(value));
  }

  lemma EditedParts(h: Bytes, value: Bytes)
    requires Seamless(h) && IsFinal(h) && Clean(value)
    ensures var h' := EditedHead(h, value, true);
      && Seamless(h') && IsFinal(h') && StatusLine(h') == StatusLine(h)
      && Lines(FieldSection(h')) == EditedLines(Lines(FieldSection(h)), value)
  {
    var status, ls := StatusLine(h), EditedLines(Lines(FieldSection(h)), value);
    HeadParts(h);
    EditedClean(h, value);
    EditedBytes(h, value);
    PartsOf(status, ls);
    SeamlessJoined(status, ls);
    StatusOf(status, Lines(FieldSection(h)));
    StatusOf(status, ls);
  }

  lemma EditedCount(ls: seq<Bytes>, value: Bytes)
    ensures EditedLines(ls, value) == OtherFields(FieldsOf(ls)) + [AltSvcLine(value)]
    ensures CountAltSvc(EditedLines(ls, value)) == 1
  {
    KeptByField(ls);
    KeptHasNone(ls, false);
    AddedLineIsAltSvc(value);
    CountLast(Kept(ls, false), AltSvcLine(value));
  }

  /** Another seamless head in place of one that was found. */
  lemma Replaced(s: Bytes, h: Bytes)
    requires Mark(s).Head? && Mark(s).crlf && Seamless(h)
    ensures Mark(h + s[Mark(s).end..]) == Head(|h|, true)
  {
    var n := Mark(s).end;
    assert s[n..] == "\r\n\r\n" + s[n + 4..];
    SeamlessMark(h, s[n + 4..]);
  }

  /** With `replace`, a final head found in the stream ends up with the service's other fields in their order and then
      exactly one Alt-Svc field; the body is untouched, and the edited head is again found in front of it. */
  lemma EditLeavesOne(s: Bytes, value: Bytes)
    requires Mark(s).Head? && Mark(s).crlf && IsFinal(s[..Mark(s).end]) && Clean(value)
    ensures var h := s[..Mark(s).end];
      var h' := EditedHead(h, value, true);
      var ls' := Lines(FieldSection(h'));
      && Mark(h' + s[Mark(s).end..]) == Head(|h'|, true)
      && ls' == OtherFields(FieldsOf(Lines(FieldSection(h)))) + [AltSvcLine(value)]
      && CountAltSvc(ls') == 1
  {
    var h := s[..Mark(s).end];
    MarkSeamless(s);
    EditedParts(h, value);
    EditedCount(Lines(FieldSection(h)), value);
    Replaced(s, EditedHead(h, value, true));
  }

  /** Editing an edited head again changes nothing. */
  lemma EditIdempotent(s: Bytes, value: Bytes)
    requires Mark(s).Head? && Mark(s).crlf && IsFinal(s[..Mark(s).end]) && Clean(value)
    ensures var h' := EditedHead(s[..Mark(s).end], value, true); EditedHead(h', value, true) == h'
  {
    var h := s[..Mark(s).end];
    var ls := Lines(FieldSection(h));
    MarkSeamless(s);
    EditedParts(h, value);
    KeptHasNone(ls, false);
    AddedLineIsAltSvc(value);
    KeptAll(Kept(ls, false), AltSvcLine(value));
    EditedParts(EditedHead(h, value, true), value);
  }

  /** Without `replace`, a final head that has no Alt-Svc field gets one line added, and any other is left alone. */
  lemma EditAppends(h: Bytes, value: Bytes)
    requires Seamless(h)
    ensures EditedHead(h, value, false) ==
      if IsFinal(h) && CountAltSvc(Lines(FieldSection(h))) == 0 then h + CRLF + AltSvcLine(value) else h
  {
    var ls := Lines(FieldSection(h));
    HeadParts(h);
    CountMeansSet(ls);
    if CountAltSvc(ls) == 0 {
      KeptUntouched(ls);
    }
  }

  lemma {:induction false} CountMeansSet(ls: seq<Bytes>)
    ensures SetsAltSvc(ls) <==> CountAltSvc(ls) > 0
  {
    if ls != [] {
      CountMeansSet(ls[1..]);
      SetsNext(ls);
    }
  }

  lemma {:induction false} KeptUntouched(ls: seq<Bytes>)
    requires CountAltSvc(ls) == 0
    ensures Kept(ls, false) == ls
  {
    if ls != [] { KeptUntouched(ls[1..]); }
  }

  // ---- The editor ----

  /** What follows an interim head may be replaced: the head is found and passed all the same. */
  lemma InterimStays(s: Bytes, after: Bytes, value: Bytes)
    requires Mark(s).Head? && Mark(s).crlf && Mark(s).end <= MAX_HEADER_BYTES && IsInterim(s[..Mark(s).end])
    ensures var first := s[..Mark(s).end + 4];
      OneShot(first + after, value, true) == first + OneShot(after, value, true)
  {
    var n := Mark(s).end;
    var first := s[..n + 4];
    assert s == first + s[n + 4..];
    MarkPrompt(first, s[n + 4..]);
    FoundHead(first, after);
    assert first[..n] == s[..n] && first[n + 4..] + after == after && first[..n + 4] == first;
    InterimPasses(first + after, value, true);
  }

  /** A final head once edited is left as it is, or is too long by now to be looked at. */
  lemma FinalStays(s: Bytes, value: Bytes)
    requires Mark(s).Head? && Mark(s).crlf && IsFinal(s[..Mark(s).end]) && Clean(value)
    ensures var out := EditedHead(s[..Mark(s).end], value, true) + s[Mark(s).end..]; OneShot(out, value, true) == out
  {
    var h := s[..Mark(s).end];
    var h', rest := EditedHead(h, value, true), s[Mark(s).end..];
    EditLeavesOne(s, value);
    EditIdempotent(s, value);
    MarkSeamless(s);
    EditedParts(h, value);
    OneShotFinal(h' + rest, h', rest, value);
  }

  lemma OneShotFinal(s: Bytes, h: Bytes, rest: Bytes, value: Bytes)
    requires s == h + rest && Mark(s) == Head(|h|, true) && IsFinal(h) && EditedHead(h, value, true) == h
    ensures OneShot(s, value, true) == s
  {
    assert s[..|h|] == h && s[|h|..] == rest;
  }

  /** With `replace` the editor is idempotent on whole streams: interim heads, heads it leaves alone and heads that
      the edit makes too long included. */
  lemma {:induction false} OneShotIdempotent(s: Bytes, value: Bytes)
    requires Clean(value)
    ensures OneShot(OneShot(s, value, true), value, true) == OneShot(s, value, true)
    decreases |s|
  {
    var m := Mark(s);
    if m.Head? && m.crlf && m.end <= MAX_HEADER_BYTES {
      if IsInterim(s[..m.end]) {
        OneShotIdempotent(s[m.end + 4..], value);
        InterimPasses(s, value, true);
        InterimStays(s, OneShot(s[m.end + 4..], value, true), value);
      } else if IsFinal(s[..m.end]) {
        FinalStays(s, value);
      } else {
        assert s[..m.end] + s[m.end..] == s;
      }
    }
  }
}

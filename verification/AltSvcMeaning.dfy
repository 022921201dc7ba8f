/** The Alt-Svc edit as a reader of the head sees it, which knows fields by their names and not by how the edit finds
    them. */
module AltSvcMeaning {
  import opened Basics
  import opened Bytes
  import opened Options
  import opened Http1
  import opened AltSvc
  import opened AltSvcHeads

  // ---- Reading a head ----

  function Flatten(gs: seq<seq<Bytes>>): seq<Bytes> { if gs == [] then [] else gs[0] + Flatten(gs[1..]) }

  /** A field from its line and the lines folded onto it: what stands before the first colon, and what follows it. */
  function ReadField(g: seq<Bytes>): Option<Field>
    requires g != []
  {
    var i := IndexColon(g[0]);
    if Folded(g[0]) || i == |g[0]| then None
    else Some((TrimSpace(g[0][..i]), TrimOWS(g[0][i + 1..] + Concat(g[1..]))))
  }

  predicate NonEmpty(gs: seq<seq<Bytes>>) { forall k :: 0 <= k < |gs| ==> gs[k] != [] }

  function ReadOne(g: seq<Bytes>): seq<Field>
    requires g != []
  {
    match ReadField(g) case None => [] case Some(f) => [f]
  }

  function Read(gs: seq<seq<Bytes>>): seq<Field>
    requires NonEmpty(gs)
  {
    if gs == [] then [] else ReadOne(gs[0]) + Read(gs[1..])
  }

  /** The fields of a response head. */
  function ReadHead(h: Bytes): seq<Field> { Read(FieldsOf(Lines(FieldSection(h)))) }

  /** The fields under any other name. */
  function Others(fs: seq<Field>, name: Bytes): seq<Field> {
    if fs == [] then [] else (if Named(fs[0], name) then [] else [fs[0]]) + Others(fs[1..], name)
  }

  // ---- Groups of lines ----

  /** Every line but the first of a group is folded, and every group but the first begins with one that is not. */
  predicate Grouped(gs: seq<seq<Bytes>>) {
    && NonEmpty(gs)
    && (forall k, j :: 0 <= k < |gs| && 0 < j < |gs[k]| ==> Folded(gs[k][j]))
    && (forall k :: 0 < k < |gs| ==> !Folded(gs[k][0]))
  }

  lemma GroupedRest(gs: seq<seq<Bytes>>)
    requires Grouped(gs) && gs != []
    ensures Grouped(gs[1..]) && (gs[1..] != [] ==> !Folded(gs[1][0]))
  {}

  lemma {:induction false} RunIs(ls: seq<Bytes>, n: nat)
    requires n <= |ls| && (forall k :: 0 <= k < n ==> Folded(ls[k])) && (n < |ls| ==> !Folded(ls[n]))
    ensures FoldedRun(ls) == n
  {}

  /** The groups of lines put back together are found again. */
  lemma {:induction false} Regrouped(gs: seq<seq<Bytes>>)
    requires Grouped(gs)
    ensures FieldsOf(Flatten(gs)) == gs
  {
    if gs != [] {
      GroupedRest(gs);
      Regrouped(gs[1..]);
      var g, rest := gs[0], Flatten(gs[1..]);
      var ls := g + rest;
      var n := |g| - 1;
      assert ls[1..] == g[1..] + rest;
      if gs[1..] != [] { assert rest[0] == gs[1][0]; }
      RunIs(ls[1..], n);
      assert ls[..n + 1] == g && ls[n + 1..] == rest;
    }
  }

  lemma {:induction false} FieldsGrouped(ls: seq<Bytes>)
    ensures Grouped(FieldsOf(ls)) && Flatten(FieldsOf(ls)) == ls
    ensures ls != [] ==> FieldsOf(ls) != [] && FieldsOf(ls)[0][0] == ls[0]
    decreases |ls|
  {
    if ls != [] {
      var n := 1 + FoldedRun(ls[1..]);
      FieldsGrouped(ls[n..]);
      var gs, rest := FieldsOf(ls), FieldsOf(ls[n..]);
      assert gs[0] == ls[..n] && gs[1..] == rest;
      assert forall j :: 0 < j < n ==> gs[0][j] == ls[1..][j - 1];
      if n < |ls| { assert ls[n] == ls[1..][n - 1] && rest[0][0] == ls[n]; }
      assert ls[..n] + ls[n..] == ls;
      forall k | 0 < k < |gs| ensures gs[k] == rest[k - 1] {}
    }
  }

  // ---- Alt-Svc by name ----

  predicate IsAltSvc(g: seq<Bytes>)
    requires g != []
  {
    ReadField(g).Some? && Named(ReadField(g).value, "Alt-Svc")
  }

  lemma {:induction false} BeforeColonIs(l: Bytes)
    ensures BeforeColon(l) == l[..IndexColon(l)] && (':' in l <==> IndexColon(l) < |l|)
  {
    if l != [] && l[0] != ':' {
      BeforeColonIs(l[1..]);
      var i := IndexColon(l[1..]);
      assert l[..i + 1] == [l[0]] + l[1..][..i];
    }
  }

  lemma NameFolds(n: Bytes)
    ensures EqualFold(n, "alt-svc") <==> EqualFold(n, "Alt-Svc")
  {
    var a, b := "alt-svc", "Alt-Svc";
    assert forall k :: 0 <= k < 7 ==> Lower(a[k]) == Lower(b[k]);
  }

  /** The edit knows an Alt-Svc field by its name, however it is spelt. */
  lemma FieldIsAltSvc(g: seq<Bytes>)
    requires g != []
    ensures IsAltSvcField(g[0]) <==> IsAltSvc(g)
  {
    BeforeColonIs(g[0]);
    NameFolds(TrimSpace(g[0][..IndexColon(g[0])]));
  }

  /** The groups of the other fields. */
  function OtherGroups(gs: seq<seq<Bytes>>): (r: seq<seq<Bytes>>)
    requires NonEmpty(gs)
    ensures NonEmpty(r)
  {
    if gs == [] then [] else (if IsAltSvcField(gs[0][0]) then [] else [gs[0]]) + OtherGroups(gs[1..])
  }

  lemma {:induction false} OtherGroupsGrouped(gs: seq<seq<Bytes>>)
    requires Grouped(gs)
    ensures Grouped(OtherGroups(gs)) && Flatten(OtherGroups(gs)) == OtherFields(gs)
    ensures gs != [] && !Folded(gs[0][0]) ==> forall k :: 0 <= k < |OtherGroups(gs)| ==> !Folded(OtherGroups(gs)[k][0])
  {
    if gs != [] {
      GroupedRest(gs);
      OtherGroupsGrouped(gs[1..]);
      var rest := OtherGroups(gs[1..]);
      if IsAltSvcField(gs[0][0]) {
        assert OtherGroups(gs) == rest;
        assert [] + OtherFields(gs[1..]) == OtherFields(gs[1..]);
      } else {
        assert OtherGroups(gs) == [gs[0]] + rest;
        assert ([gs[0]] + rest)[1..] == rest;
        if gs[1..] == [] { assert rest == []; }
      }
    }
  }

  lemma {:induction false} ReadOthers(gs: seq<seq<Bytes>>)
    requires NonEmpty(gs)
    ensures Read(OtherGroups(gs)) == Others(Read(gs), "Alt-Svc") && Valued(Read(OtherGroups(gs)), "Alt-Svc") == []
  {
    if gs != [] {
      ReadOthers(gs[1..]);
      FieldIsAltSvc(gs[0]);
      var one, rest := ReadOne(gs[0]), OtherGroups(gs[1..]);
      assert (one + Read(gs[1..]))[|one|..] == Read(gs[1..]);
      if one != [] { assert Read(gs)[1..] == Read(gs[1..]); } else { assert Read(gs) == Read(gs[1..]); }
      if IsAltSvcField(gs[0][0]) {
        assert OtherGroups(gs) == rest;
      } else {
        assert OtherGroups(gs)[0] == gs[0] && OtherGroups(gs)[1..] == rest;
        if one != [] { assert Read(OtherGroups(gs))[1..] == Read(rest); }
      }
    }
  }

  lemma {:induction false} ReadLast(gs: seq<seq<Bytes>>, g: seq<Bytes>)
    requires NonEmpty(gs) && g != []
    ensures NonEmpty(gs + [g]) && Read(gs + [g]) == Read(gs) + ReadOne(g)
  {
    if gs == [] {
      assert gs + [g] == [g] && [g][1..] == [];
    } else {
      ReadLast(gs[1..], g);
      assert (gs + [g])[1..] == gs[1..] + [g];
      Assoc(ReadOne(gs[0]), Read(gs[1..]), ReadOne(g));
    }
  }

  lemma {:induction false} FlattenLast(gs: seq<seq<Bytes>>, g: seq<Bytes>)
    ensures Flatten(gs + [g]) == Flatten(gs) + g
  {
    if gs == [] {
      assert gs + [g] == [g] && [g][1..] == [];
    } else {
      FlattenLast(gs[1..], g);
      assert (gs + [g])[1..] == gs[1..] + [g];
      Assoc(gs[0], Flatten(gs[1..]), g);
    }
  }

  lemma AddedSplits(value: Bytes)
    ensures var l := AltSvcLine(value); IndexColon(l) == 7 && l[..7] == "Alt-Svc" && l[8..] == " " + value
  {
    var l := AltSvcLine(value);
    assert l == "Alt-Svc" + ":" + (" " + value);
    BeforeColonOf("Alt-Svc", " " + value);
    BeforeColonIs(l);
  }

  lemma AddedReads(value: Bytes)
    ensures !Folded(AltSvcLine(value)) && ReadOne([AltSvcLine(value)]) == [("Alt-Svc", TrimOWS(value))]
  {
    var l := AltSvcLine(value);
    var g := [l];
    AddedSplits(value);
    assert g[1..] == [] && l[8..] + [] == l[8..];
    assert TrimSpace("Alt-Svc") == "Alt-Svc";
    assert (" " + value)[1..] == value;
  }

  /** The lines of an edited head, read: the other fields as they were, and then the one added. */
  lemma EditedReads(ls: seq<Bytes>, value: Bytes)
    ensures Read(FieldsOf(EditedLines(ls, value))) ==
      Others(Read(FieldsOf(ls)), "Alt-Svc") + [("Alt-Svc", TrimOWS(value))]
    ensures Valued(Read(FieldsOf(EditedLines(ls, value))), "Alt-Svc") == [TrimOWS(value)]
  {
    var gs, l := FieldsOf(ls), AltSvcLine(value);
    FieldsGrouped(ls);
    OtherGroupsGrouped(gs);
    KeptByField(ls);
    AddedReads(value);
    var all := OtherGroups(gs) + [[l]];
    FlattenLast(OtherGroups(gs), [l]);
    Regrouped(all);
    ReadOthers(gs);
    ReadLast(OtherGroups(gs), [l]);
    ValuedLast(Read(OtherGroups(gs)), ("Alt-Svc", TrimOWS(value)), "Alt-Svc");
  }

  lemma {:induction false} ValuedLast(fs: seq<Field>, f: Field, name: Bytes)
    ensures Valued(fs + [f], name) == Valued(fs, name) + if Named(f, name) then [f.1] else []
  {
    if fs == [] {
      assert fs + [f] == [f] && [f][1..] == [];
    } else {
      ValuedLast(fs[1..], f, name);
      assert (fs + [f])[1..] == fs[1..] + [f];
      Assoc(if Named(fs[0], name) then [fs[0].1] else [], Valued(fs[1..], name), if Named(f, name) then [f.1] else []);
    }
  }

  /** With `replace`, a reader of the edited head finds one Alt-Svc, the one added, whatever the service sent and
      however it spelt it; and under every other name what the service sent, in its order. */
  lemma ReplaceReads(s: Bytes, value: Bytes)
    requires Mark(s).Head? && Mark(s).crlf && IsFinal(s[..Mark(s).end]) && Clean(value)
    ensures var h := s[..Mark(s).end];
      var read := ReadHead(EditedHead(h, value, true));
      && Valued(read, "Alt-Svc") == [TrimOWS(value)]
      && read == Others(ReadHead(h), "Alt-Svc") + [("Alt-Svc", TrimOWS(value))]
  {
    var h := s[..Mark(s).end];
    MarkSeamless(s);
    EditedParts(h, value);
    EditedReads(Lines(FieldSection(h)), value);
  }

  // ---- Without replace ----

  lemma SetsBoth(a: seq<Bytes>, b: seq<Bytes>)
    ensures SetsAltSvc(a + b) <==> SetsAltSvc(a) || SetsAltSvc(b)
  {
    var c := a + b;
    assert forall k :: 0 <= k < |a| ==> c[k] == a[k];
    assert forall k :: 0 <= k < |b| ==> c[|a| + k] == b[k];
    assert forall k :: |a| <= k < |c| ==> c[k] == b[k - |a|];
  }

  lemma SetsOne(g: seq<Bytes>)
    requires g != [] && forall j :: 0 < j < |g| ==> Folded(g[j])
    ensures SetsAltSvc(g) <==> IsAltSvc(g)
  {
    FieldIsAltSvc(g);
    assert SetsAltSvc(g) <==> IsAltSvcField(g[0]);
  }

  lemma ValuedOne(g: seq<Bytes>, rest: seq<Field>)
    requires g != []
    ensures Valued(ReadOne(g) + rest, "Alt-Svc") != [] <==> IsAltSvc(g) || Valued(rest, "Alt-Svc") != []
  {
    var one := ReadOne(g);
    if one == [] { assert one + rest == rest; } else { assert (one + rest)[1..] == rest; }
  }

  lemma {:induction false} SetsMeans(gs: seq<seq<Bytes>>)
    requires Grouped(gs)
    ensures SetsAltSvc(Flatten(gs)) <==> Valued(Read(gs), "Alt-Svc") != []
  {
    if gs != [] {
      GroupedRest(gs);
      SetsMeans(gs[1..]);
      SetsBoth(gs[0], Flatten(gs[1..]));
      SetsOne(gs[0]);
      ValuedOne(gs[0], Read(gs[1..]));
    }
  }

  /** Without `replace`, one line is added exactly to a final head in which a reader finds no Alt-Svc, and every
      other head is left alone. */
  lemma AppendReads(h: Bytes, value: Bytes)
    requires Seamless(h)
    ensures EditedHead(h, value, false) ==
      if IsFinal(h) && Valued(ReadHead(h), "Alt-Svc") == [] then h + CRLF + AltSvcLine(value) else h
  {
    var ls := Lines(FieldSection(h));
    EditAppends(h, value);
    CountMeansSet(ls);
    FieldsGrouped(ls);
    SetsMeans(FieldsOf(ls));
  }

  // ---- Which heads ----

  lemma {:induction false} WordOf(w: Bytes, after: Bytes)
    requires forall c <- w :: !IsSpace(c)
    ensures Word(w + (" " + after)) == w
  {
    if w == [] {
      assert w + (" " + after) == " " + after;
    } else {
      WordOf(w[1..], after);
      assert (w + (" " + after))[1..] == w[1..] + (" " + after);
    }
  }

  lemma FirstField(w: Bytes, after: Bytes)
    requires w != [] && forall c <- w :: !IsSpace(c)
    ensures Fields(w + (" " + after)) == [w] + Fields(after)
  {
    var s := w + (" " + after);
    WordOf(w, after);
    assert s[0] == w[0] && w[0] in w;
    assert s[|w|..] == " " + after && (" " + after)[1..] == after;
  }

  /** A head whose status line gives a version, a code and a reason: it is interim if the code is 1xx but 101, which
      switches protocols, and it may be edited if the code is any other than 1xx. A head that is no HTTP/1 response is
      neither. */
  lemma StatusMeans(version: Bytes, code: Bytes, reason: Bytes, ls: seq<Bytes>)
    requires version != [] && (forall c <- version :: !IsSpace(c))
    requires |code| == 3 && (forall c <- code :: !IsSpace(c)) && Clean(reason) && CleanLines(ls)
    ensures var h := version + (" " + (code + (" " + reason))) + Joined(ls);
      && (IsInterim(h) <==> "HTTP/1." <= version && code[0] == '1' && code != "101")
      && (IsFinal(h) <==> "HTTP/1." <= version && code[0] != '1')
  {
    var status := version + (" " + (code + (" " + reason)));
    assert Clean(status) by {
      assert forall c <- status :: c in version || c in code || c in reason || c == ' ';
    }
    StatusOf(status, ls);
    FirstLineOf(status, []);
    FirstField(version, code + (" " + reason));
    FirstField(code, reason);
  }

  // ---- Where a head ends ----

  /** An empty line, whichever line breaks are used. */
  predicate EmptyLineAt(s: Bytes, i: nat)
    requires i <= |s|
  {
    "\n\n" <= s[i..] || "\n\r\n" <= s[i..]
  }

  lemma BlankIs(s: Bytes, i: nat)
    requires i <= |s|
    ensures Blank(s, i) <==> EmptyLineAt(s, i)
  {
    var t := s[i..];
    if |t| >= 2 { assert t[..2] == [t[0], t[1]]; }
    if |t| >= 3 { assert t[..3] == [t[0], t[1], t[2]]; }
  }

  ghost predicate FirstEmptyLine(s: Bytes, j: nat) {
    j < |s| && EmptyLineAt(s, j) && forall k: nat :: k < j ==> !EmptyLineAt(s, k)
  }

  /** Every line break up to this one is a CRLF. */
  predicate AllCRLF(s: Bytes, j: nat) {
    forall i: nat :: i <= j && i < |s| && s[i] == '\n' ==> i > 0 && s[i - 1] == '\r'
  }

  lemma BareIs(s: Bytes, j: nat)
    requires j < |s|
    ensures HasBareLF(s[..j + 1]) <==> !AllCRLF(s, j)
  {
    var h := s[..j + 1];
    assert forall i :: 0 <= i <= j ==> h[i] == s[i];
  }

  /** A head ends at the first empty line, whichever line breaks are used, and its line breaks count as CRLF exactly if
      all of them are, those of the empty line included. */
  lemma MarkMeans(s: Bytes, j: nat)
    ensures FirstEmptyLine(s, j) ==>
      && Mark(s).Head? && Mark(s).end == (if j > 0 && s[j - 1] == '\r' then j - 1 else j)
      && (Mark(s).crlf <==> AllCRLF(s, j) && "\n\r\n" <= s[j..])
    ensures Mark(s).Head? <==> exists k: nat :: FirstEmptyLine(s, k)
  {
    forall i: nat | i <= |s| ensures Blank(s, i) <==> EmptyLineAt(s, i) { BlankIs(s, i); }
    if FirstBlank(s, 0) >= 0 { assert FirstEmptyLine(s, FirstBlank(s, 0)); }
    if FirstEmptyLine(s, j) {
      assert FirstBlank(s, 0) == j;
      BareIs(s, j);
      var t := s[j..];
      assert t[0] == s[j] && t[1] == s[j + 1];
      if |t| >= 3 { assert t[..3] == [t[0], t[1], t[2]]; }
    }
  }

  // ---- Folded lines ----

  /** The line after an Alt-Svc line goes with it exactly if it begins with a space or a tab, as section 5.2 of RFC 9112
      has it, or is itself one. */
  lemma FoldsGo(l: Bytes, next: Bytes, ls: seq<Bytes>)
    requires IsAltSvcField(l)
    ensures Kept([l] + ([next] + ls), false) ==
      if IsAltSvcField(next) || " " <= next || "\t" <= next then Kept(ls, true) else [next] + Kept(ls, false)
  {
    var all := [l] + ([next] + ls);
    assert all[1..] == [next] + ls && ([next] + ls)[1..] == ls;
    assert Folded(next) <==> " " <= next || "\t" <= next by {
      if next != [] { assert next[..1] == [next[0]]; }
    }
  }
}

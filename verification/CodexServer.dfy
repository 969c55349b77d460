/**
 Whose [mcp_servers.tj] table it is, in the terms of the file: the table goes exactly when it holds
 the note "Managed by tj" or an assignment of "tj" to `command` (tokenjam/cli/cmd_onboard.py).
 */
module CodexServer {
  import opened Prelude
  import opened TextScan
  import opened Codex
  import opened CodexScans
  import opened CodexRewrite
  import opened CodexConverges
  import opened CodexLines
  import opened CodexIndented

  // ---------------------------------------------------------------------
  // The marks
  // ---------------------------------------------------------------------

  ghost predicate NoteAt(t: string, a: string, b: string) {
    t == a + "Managed by tj" + b
  }

  /** An assignment with any white space, line breaks too, around its sign. */
  ghost predicate AssignmentAt(t: string, a: string, w1: string, w2: string, b: string) {
    t == a + ("command" + (w1 + ("=" + (w2 + ("\"tj\"" + b))))) && Blank(w1) && Blank(w2)
  }

  /** The note, or an assignment of "tj" to `command`. */
  ghost predicate Marked(t: string) {
    || (exists a, b :: NoteAt(t, a, b))
    || (exists a, w1, w2, b :: AssignmentAt(t, a, w1, w2, b))
  }

  lemma {:induction false} OccursMeans(p: string, t: string)
    ensures Occurs(p, t) <==> exists k :: 0 <= k <= |t| && p <= t[k..]
  {
    if p <= t {
      assert t[0..] == t;
    } else if t != [] {
      OccursMeans(p, t[1..]);
      if Occurs(p, t[1..]) {
        var k :| 0 <= k <= |t[1..]| && p <= t[1..][k..];
        assert t[1..][k..] == t[k + 1..];
      }
      if k :| 0 <= k <= |t| && p <= t[k..] {
        assert t[0..] == t;
        assert t[1..][k - 1..] == t[k..];
      }
    }
  }

  lemma {:induction false} CommandMeans(t: string)
    ensures HasTjCommand(t) <==> exists k :: 0 <= k <= |t| && CommandHere(t[k..])
  {
    hide CommandHere;
    assert t[0..] == t;
    if t != [] {
      CommandMeans(t[1..]);
      if HasTjCommand(t[1..]) {
        var k :| 0 <= k <= |t[1..]| && CommandHere(t[1..][k..]);
        assert t[1..][k..] == t[k + 1..];
      }
      if k :| 0 < k <= |t| && CommandHere(t[k..]) {
        assert t[1..][k - 1..] == t[k..];
      }
    }
  }

  lemma {:induction false} NoteMeans(t: string)
    ensures Occurs("Managed by tj", t) <==> exists a, b :: NoteAt(t, a, b)
  {
    hide Occurs;
    var p := "Managed by tj";
    OccursMeans(p, t);
    if k :| 0 <= k <= |t| && p <= t[k..] {
      assert t == t[..k] + p + t[k + |p|..];
      assert NoteAt(t, t[..k], t[k + |p|..]);
    }
    if a, b :| NoteAt(t, a, b) {
      assert t[|a|..] == p + b;
    }
  }

  lemma {:induction false} TrimsBlank(w: string, u: string)
    requires Blank(w) && u != "" && !IsSpace(u[0])
    ensures TrimLeft(w + u) == u
  {
    TrimLeftSplit(w, u);
    BlankTrimsAway(w);
  }

  lemma {:induction false} CommandSplits(t: string)
    ensures CommandHere(t) <==> exists w1, w2, b :: AssignmentAt(t, "", w1, w2, b)
  {
    if CommandHere(t) {
      var v := t[7..];
      var u := TrimLeft(v);
      TrimLeftSplits(v);
      var w1 :| Blank(w1) && v == w1 + u;
      TrimLeftSplits(u[1..]);
      var x := TrimLeft(u[1..]);
      var w2 :| Blank(w2) && u[1..] == w2 + x;
      var b := x[4..];
      assert x == "\"tj\"" + b;
      assert u == "=" + u[1..];
      assert t == "command" + v;
      assert t == "" + ("command" + (w1 + ("=" + (w2 + ("\"tj\"" + b)))));
      assert AssignmentAt(t, "", w1, w2, b);
    }
    if w1, w2, b :| AssignmentAt(t, "", w1, w2, b) {
      var x := "\"tj\"" + b;
      var u := "=" + (w2 + x);
      assert t == "command" + (w1 + u);
      assert t[7..] == w1 + u;
      TrimsBlank(w1, u);
      assert u[1..] == w2 + x;
      TrimsBlank(w2, x);
    }
  }

  lemma {:induction false} AssignmentMeans(t: string)
    ensures HasTjCommand(t) <==> exists a, w1, w2, b :: AssignmentAt(t, a, w1, w2, b)
  {
    hide CommandHere, HasTjCommand;
    CommandMeans(t);
    if k :| 0 <= k <= |t| && CommandHere(t[k..]) {
      CommandSplits(t[k..]);
      var w1, w2, b :| AssignmentAt(t[k..], "", w1, w2, b);
      assert t == t[..k] + t[k..];
      assert AssignmentAt(t, t[..k], w1, w2, b);
    }
    if a, w1, w2, b :| AssignmentAt(t, a, w1, w2, b) {
      assert AssignmentAt(t[|a|..], "", w1, w2, b);
      CommandSplits(t[|a|..]);
    }
  }

  lemma {:induction false} OursIsMarked(t: string)
    ensures IsOurs(t) <==> Marked(t)
    ensures OursAnywhere(t) <==> Marked(t)
  {
    hide Occurs, HasTjCommand, OursAnywhere;
    NoteMeans(t);
    AssignmentMeans(t);
    OursIsAnywhere(t);
  }

  // ---------------------------------------------------------------------
  // Retiring, on any text
  // ---------------------------------------------------------------------

  lemma {:induction false} FindStep(h: string, t: string)
    ensures h <= t ==> Find(h, t) == Some(0)
    ensures t != "" && !(h <= t) && Find(h, t[1..]).Some? ==> Find(h, t) == Some(Find(h, t[1..]).value + 1)
  {}

  lemma {:induction false} NotYet(h: string, s: string, t: string)
    requires s <= t && |h| <= |s| && !Occurs(h, s)
    ensures !(h <= t)
  {
    assert t[..|h|] == s[..|h|];
  }

  lemma {:induction false} FirstFind(h: string, a: string, u: string)
    requires h != "" && !Occurs(h, a + h[..|h| - 1])
    ensures Find(h, a + (h + u)) == Some(|a|)
  {
    hide Find;
    var t := a + (h + u);
    FindStep(h, t);
    if a == "" {
      assert t == h + u;
    } else {
      var n := |h| - 1;
      var s := a + h[..n];
      assert s[1..] == a[1..] + h[..n] && t[1..] == a[1..] + (h + u);
      FirstFind(h, a[1..], u);
      NotYet(h, s, t) by {
        assert t == s + (h[n..] + u);
      }
    }
  }

  lemma {:induction false} FirstEnd(body: string, rest: string)
    requires !Occurs("\n[", body) && (rest == "" || "\n[" <= rest)
    ensures SectionEnd(body + rest) == rest
  {
    var t := body + rest;
    if body == "" {
      assert t == rest;
    } else {
      assert t[1..] == body[1..] + rest;
      FirstEnd(body[1..], rest);
      assert !("\n[" <= t) by {
        assert "\n["[0] == '\n' && "\n["[1] == '[';
        if |body| > 1 {
          assert t[0] == body[0] && t[1] == body[1];
        } else if rest != "" {
          assert t[1] == rest[0];
        }
      }
    }
  }

  /**
   The first tj table of a text of any content, from its header to the next line that opens with a
   bracket, is cut out if it is marked; otherwise the text stays as it is.
   */
  lemma {:induction false} RetiredExactly(a: string, body: string, rest: string)
    requires !Occurs(TJ_SERVER, a + TJ_SERVER[..|TJ_SERVER| - 1])
    requires !Occurs("\n[", body) && (rest == "" || "\n[" <= rest)
    ensures var t := a + (TJ_SERVER + (body + rest));
            RetireServer(t) == if Marked(TJ_SERVER + body) then Tidied(Collapse(a + rest)) else t
  {
    hide Occurs, Tidied, Collapse, Marked, IsOurs, SectionEnd, Find;
    var t := a + (TJ_SERVER + (body + rest));
    FirstFind(TJ_SERVER, a, body + rest);
    FirstEnd(body, rest);
    assert t[|a| + |TJ_SERVER|..] == body + rest;
    assert SectionOf(body + rest) == body;
    assert t[..|a|] == a;
    OursIsMarked(TJ_SERVER + body);
  }

  // ---------------------------------------------------------------------
  // The table among the lines
  // ---------------------------------------------------------------------

  function UpToBracket(lines: seq<string>): seq<string> {
    if lines == [] || Opens(lines[0]) then [] else [lines[0]] + UpToBracket(lines[1..])
  }

  /** The lines of the first tj server table, its header first. */
  function ServerTable(lines: seq<string>): seq<string> {
    if lines == [] then []
    else if TJ_SERVER <= lines[0] then [lines[0]] + UpToBracket(lines[1..])
    else ServerTable(lines[1..])
  }

  /** Lines as one text, with newlines between them. */
  function Joined(lines: seq<string>): string {
    if lines == [] then "" else if |lines| == 1 then lines[0] else lines[0] + "\n" + Joined(lines[1..])
  }

  lemma {:induction false} JoinedStep(l: string, lines: seq<string>)
    ensures Joined([l] + lines) == if lines == [] then l else l + "\n" + Joined(lines)
  {
    assert ([l] + lines)[1..] == lines;
  }

  lemma {:induction false} SectionStep(u: string)
    requires u != "" && !("\n[" <= u)
    ensures SectionOf(u) == [u[0]] + SectionOf(u[1..])
  {
    SectionStops(u);
    SectionStops(u[1..]);
  }

  lemma {:induction false} EndsHere(u: string)
    requires u == "" || "\n[" <= u
    ensures SectionOf(u) == ""
  {}

  lemma {:induction false} BracketNext(u: string)
    requires u != ""
    ensures "\n[" <= u <==> u[0] == '\n' && Opens(Lines(u[1..])[0])
  {
    hide Lines;
    FirstLine("[", u[1..]);
    assert "\n[" <= u <==> u[0] == '\n' && "[" <= u[1..] by {
      assert "\n["[1..] == "[" && "\n["[0] == '\n';
    }
  }

  lemma {:induction false} SectionLines(u: string)
    ensures SectionOf(u) == Joined([Lines(u)[0]] + UpToBracket(Lines(u)[1..]))
  {
    hide Joined, SectionOf, Lines;
    var l := Lines(u);
    JoinedStep(l[0], UpToBracket(l[1..]));
    if u == "" {
      NoLines();
      EndsHere(u);
    } else {
      var m := Lines(u[1..]);
      StepLines(u);
      BracketNext(u);
      if "\n[" <= u {
        EndsHere(u);
        assert UpToBracket(l[1..]) == [];
      } else {
        SectionLines(u[1..]);
        SectionStep(u);
        JoinedStep(m[0], UpToBracket(m[1..]));
        if u[0] == '\n' {
          assert UpToBracket(m) == [m[0]] + UpToBracket(m[1..]);
        }
      }
    }
  }

  /** The scan for the owner reads the table among the lines. */
  lemma {:induction false} OwnsTable(t: string)
    requires HeadsOnly({TJ_SERVER}, Lines(t))
    ensures Owns(t) <==> OursAnywhere(Joined(ServerTable(Lines(t))))
    decreases |t|, 1
  {
    hide Occurs, OursAhead, OursAnywhere, Joined, SectionEnd, Lines;
    AllOneLine();
    ServerHeaders();
    FirstLine(TJ_SERVER, t);
    if TJ_SERVER <= t {
      OursInSection(t);
      SectionLines(t);
    } else if t == "" {
      NoLines();
      NothingIsOurs();
      JoinedNothing();
    } else {
      StepLines(t);
      if t[0] == '\n' {
        OwnsTable(t[1..]);
      } else {
        assert Lines(t)[0] in Lines(t) && TJ_SERVER in {TJ_SERVER};
        OwnsTableInLine(t[1..]);
      }
    }
  }

  lemma {:induction false} JoinedNothing()
    ensures Joined([]) == ""
  {}

  lemma {:induction false} StepLines(t: string)
    requires t != ""
    ensures t[0] == '\n' ==> Lines(t)[0] == "" && Lines(t)[1..] == Lines(t[1..])
    ensures t[0] != '\n' ==> Lines(t)[0] == [t[0]] + Lines(t[1..])[0] && Lines(t)[1..] == Lines(t[1..])[1..]
    ensures t[0] != '\n' ==> Lines(t)[0][1..] == Lines(t[1..])[0]
  {}

  lemma {:induction false} OwnsTableInLine(t: string)
    requires !Occurs(TJ_SERVER, Lines(t)[0]) && HeadsOnly({TJ_SERVER}, Lines(t)[1..])
    ensures Owns(t) <==> OursAnywhere(Joined(ServerTable(Lines(t)[1..])))
    decreases |t|, 0
  {
    hide OursAhead, OursAnywhere, Joined, Lines;
    AllOneLine();
    ServerHeaders();
    FirstLine(TJ_SERVER, t);
    if t == "" {
      NoLines();
      NothingIsOurs();
      JoinedNothing();
    } else {
      StepLines(t);
      if t[0] == '\n' {
        OwnsTable(t[1..]);
      } else {
        OwnsTableInLine(t[1..]);
      }
    }
  }

  // ---------------------------------------------------------------------
  // The table under the other edits of a rewrite
  // ---------------------------------------------------------------------

  /** The same lines, and empty ones behind them. */
  ghost predicate Longer(a: seq<string>, b: seq<string>) {
    |b| <= |a| && a[..|b|] == b && forall k :: |b| <= k < |a| ==> a[k] == ""
  }

  lemma {:induction false} LongerStep(l: string, a: seq<string>, b: seq<string>)
    requires Longer(a, b)
    ensures Longer([l] + a, [l] + b)
  {
    assert ([l] + a)[..|b| + 1] == [l] + b;
  }

  lemma {:induction false} LongerEmpty(a: seq<string>)
    requires Longer(a, [])
    ensures Longer([""] + a, [])
  {}

  lemma {:induction false} BracketCut(h: string, lines: seq<string>)
    requires Header(h)
    ensures Longer(UpToBracket(CutLines(h, lines)), UpToBracket(lines))
    decreases |lines|
  {
    if lines != [] {
      var cut := CutLines(h, lines);
      if h <= lines[0] {
        var r := FromBracket(lines[1..]);
        FromBracketPart(lines[1..]);
        BracketCut(h, r);
        assert cut[0] == "" && cut[1..] == CutLines(h, r);
        LongerEmpty(UpToBracket(CutLines(h, r)));
      } else {
        BracketCut(h, lines[1..]);
        assert cut[0] == lines[0] && cut[1..] == CutLines(h, lines[1..]);
        LongerStep(lines[0], UpToBracket(cut[1..]), UpToBracket(lines[1..]));
      }
    }
  }

  lemma {:induction false} TablePastBracket(lines: seq<string>)
    ensures ServerTable(FromBracket(lines)) == ServerTable(lines)
  {
    if lines != [] && !Opens(lines[0]) {
      assert TJ_SERVER[0] == '[';
      TablePastBracket(lines[1..]);
    }
  }

  /** Two headers do not start the same line. */
  lemma {:induction false} OneHeaderOnly(h: string, g: string, line: string)
    requires Header(h) && Header(g) && h <= line && g <= line
    ensures h == g
  {
    assert h[|h| - 1] == line[|h| - 1] && g[|g| - 1] == line[|g| - 1];
    assert |h| <= |g| ==> g[|h| - 1] == ']';
    assert |g| <= |h| ==> h[|g| - 1] == ']';
  }

  lemma {:induction false} TableCut(h: string, lines: seq<string>)
    requires Header(h) && h != TJ_SERVER
    ensures Longer(ServerTable(CutLines(h, lines)), ServerTable(lines))
    ensures ServerTable(lines) == [] ==> ServerTable(CutLines(h, lines)) == []
    decreases |lines|
  {
    hide Header;
    if lines != [] {
      ServerHeaders();
      var cut := CutLines(h, lines);
      if h <= lines[0] {
        var r := FromBracket(lines[1..]);
        if TJ_SERVER <= lines[0] {
          OneHeaderOnly(h, TJ_SERVER, lines[0]);
        }
        TablePastBracket(lines[1..]);
        TableCut(h, r);
        assert cut[0] == "" && cut[1..] == CutLines(h, r);
      } else {
        assert cut[0] == lines[0] && cut[1..] == CutLines(h, lines[1..]);
        if TJ_SERVER <= lines[0] {
          BracketCut(h, lines[1..]);
          LongerStep(lines[0], UpToBracket(cut[1..]), UpToBracket(lines[1..]));
        } else {
          TableCut(h, lines[1..]);
        }
      }
    }
  }

  lemma {:induction false} AnywhereLonger(s: string, r: string)
    requires forall k :: 0 <= k < |r| ==> r[k] == '\n'
    ensures OursAnywhere(s + r) <==> OursAnywhere(s)
  {
    hide OursHere;
    NothingIsOurs();
    if s == "" {
      assert s + r == r;
      if r != "" {
        NewlineStartsNothing(r);
        AnywhereLonger("", r[1..]);
        assert "" + r[1..] == r[1..];
      }
    } else {
      assert (s + r)[1..] == s[1..] + r;
      NewlinesStop(r);
      OursBound(s, r);
      AnywhereLonger(s[1..], r);
    }
  }

  lemma {:induction false} NewlineStartsNothing(r: string)
    requires r != "" && r[0] == '\n'
    ensures !OursHere(r)
  {}

  lemma {:induction false} NewlinesStop(r: string)
    requires forall k :: 0 <= k < |r| ==> r[k] == '\n'
    ensures Stop(r)
  {
    assert Blank(r);
    BlankTrimsAway(r);
  }

  function Newlines(n: nat): string { seq(n, _ => '\n') }

  lemma {:induction false} JoinedLonger(a: seq<string>, b: seq<string>)
    requires Longer(a, b) && b != []
    ensures Joined(a) == Joined(b) + Newlines(|a| - |b|)
  {
    if |b| == 1 {
      JoinedEmpty(a);
      assert a[0] == b[0];
    } else {
      assert a[1..][..|b| - 1] == b[1..];
      assert Longer(a[1..], b[1..]);
      JoinedLonger(a[1..], b[1..]);
      assert a[0] == b[0];
    }
  }

  lemma {:induction false} JoinedEmpty(a: seq<string>)
    requires a != [] && forall k :: 1 <= k < |a| ==> a[k] == ""
    ensures Joined(a) == a[0] + Newlines(|a| - 1)
  {
    if |a| > 1 {
      JoinedEmpty(a[1..]);
      assert "\n" + ("" + Newlines(|a| - 2)) == Newlines(|a| - 1);
    }
  }

  lemma {:induction false} OwnsCut(hs: set<string>, h: string, t: string)
    requires Neat(hs, t) && TJ_SERVER in hs && h in hs && h != TJ_SERVER
    ensures Owns(Cut(h, t)) <==> Owns(t)
  {
    hide Owns, Cut, CutLines, Joined, OursAnywhere, Header, HeadOnly, Flush, Lines;
    AllOneLine();
    CutKeeps(hs, h, t);
    CutAtStart(h, t);
    OwnsTable(t);
    OwnsTable(Cut(h, t));
    var a, b := ServerTable(CutLines(h, Lines(t))), ServerTable(Lines(t));
    TableCut(h, Lines(t));
    if b != [] {
      JoinedLonger(a, b);
      AnywhereLonger(Joined(b), Newlines(|a| - |b|));
    }
  }

  lemma {:induction false} OwnsCutAll(hs: set<string>, order: seq<string>, t: string)
    requires Neat(hs, t) && TJ_SERVER in hs && forall h :: h in order ==> h in hs && h != TJ_SERVER
    requires Headers(order)
    ensures Owns(CutAll(order, t)) <==> Owns(t)
  {
    hide Owns, Cut, Neat, KeptLines;
    if order != [] {
      CutKeeps(hs, order[0], t);
      OwnsCut(hs, order[0], t);
      OwnsCutAll(hs, order[1..], Cut(order[0], t));
    }
  }

  // ---------------------------------------------------------------------
  // White space at the ends
  // ---------------------------------------------------------------------

  lemma {:induction false} WordBeforeSpace(g: string, u: string, c: char)
    requires g != "" && !IsSpace(g[|g| - 1]) && IsSpace(c)
    ensures g <= u + [c] <==> g <= u
  {
    assert (u + [c])[|u|] == c;
  }

  lemma {:induction false} Words()
    ensures !IsSpace("Managed by tj"[12]) && !IsSpace("command"[6]) && !IsSpace("\"tj\""[3]) && !IsSpace("\n["[1])
    ensures !IsSpace('=') && !IsSpace('[')
  {}

  lemma {:induction false} OursBeforeSpace(s: string, c: char)
    requires IsSpace(c)
    ensures OursHere(s + [c]) <==> OursHere(s)
  {
    hide IsSpace;
    Words();
    WordBeforeSpace("Managed by tj", s, c);
    WordBeforeSpace("command", s, c);
    if "command" <= s {
      var a := s[7..];
      assert (s + [c])[7..] == a + [c];
      OnlySpace(c);
      TrimLeftJoin(a, [c]);
      if TrimLeft(a) != "" {
        var u := TrimLeft(a);
        assert (u + [c])[1..] == u[1..] + [c];
        TrimLeftJoin(u[1..], [c]);
        if TrimLeft(u[1..]) != "" {
          WordBeforeSpace("\"tj\"", TrimLeft(u[1..]), c);
        }
      }
    }
  }

  lemma {:induction false} OnlySpace(c: char)
    requires IsSpace(c)
    ensures TrimLeft([c]) == ""
  {
    assert [c][1..] == "";
  }

  lemma {:induction false} SpaceIsNothing(c: char)
    requires IsSpace(c)
    ensures !OursAhead([c]) && !OursHere([c]) && !Owns([c])
  {
    assert [c][1..] == "";
  }

  lemma {:induction false} AheadBeforeSpace(u: string, c: char)
    requires IsSpace(c)
    ensures OursAhead(u + [c]) <==> OursAhead(u)
  {
    hide OursHere, IsSpace;
    if u == "" {
      assert u + [c] == [c];
      SpaceIsNothing(c);
    } else {
      Words();
      assert (u + [c])[1..] == u[1..] + [c];
      AheadBeforeSpace(u[1..], c);
      OursBeforeSpace(u, c);
      WordBeforeSpace("\n[", u, c);
    }
  }

  lemma {:induction false} OwnsBeforeSpace(t: string, c: char)
    requires IsSpace(c)
    ensures Owns(t + [c]) <==> Owns(t)
  {
    hide OursAhead, Header, IsSpace;
    if t == "" {
      assert t + [c] == [c];
      SpaceIsNothing(c);
    } else {
      assert (t + [c])[1..] == t[1..] + [c];
      ServerHeaders();
      NoSpaceAtEnd(TJ_SERVER, t, c);
      AheadBeforeSpace(t, c);
      OwnsBeforeSpace(t[1..], c);
    }
  }

  lemma {:induction false} OwnsTrimmedRight(t: string)
    ensures Owns(TrimRight(t)) <==> Owns(t)
  {
    hide Owns, IsSpace;
    if t != "" && IsSpace(t[|t| - 1]) {
      var s := t[..|t| - 1];
      assert t == s + [t[|t| - 1]];
      OwnsBeforeSpace(s, t[|t| - 1]);
      OwnsTrimmedRight(s);
    }
  }

  lemma {:induction false} OwnsTrimmed(t: string)
    ensures Owns(Trim(t)) <==> Owns(t)
  {
    hide OursAhead;
    if t != "" && IsSpace(t[0]) {
      assert !IsSpace(TJ_SERVER[0]);
      OwnsTrimmed(t[1..]);
    } else {
      OwnsTrimmedRight(t);
    }
  }

  lemma {:induction false} OwnsTidied(t: string)
    ensures Owns(Tidied(t)) <==> Owns(t)
  {
    hide Owns, Trim;
    OwnsTrimmed(t);
    NewlineIsSpace();
    if Trim(t) != "" {
      OwnsBeforeSpace(Trim(t), '\n');
    }
  }

  // ---------------------------------------------------------------------
  // A forced rewrite
  // ---------------------------------------------------------------------

  lemma {:induction false} OtherHeaders()
    ensures OCW_SERVER != TJ_SERVER && OCW_SERVER in EVERY && TJ_SERVER in EVERY
    ensures forall h :: h in STRIP_ORDER ==> h in EVERY && h != TJ_SERVER
    ensures forall h :: h in PURGE_ORDER ==> h in EVERY && h != TJ_SERVER
  {
    hide Header;
    OursAreHeaders();
    assert forall h :: h in OURS ==> h != TJ_SERVER by {
      assert OCW_SERVER[13] == 'o' && TJ_SERVER[13] == 't';
      SecondLetters();
    }
  }

  lemma {:induction false} SecondLetters()
    ensures TJ_SERVER[1] == 'm' && OTEL[1] == 'o' && OTEL_RESOURCE[1] == 'o'
    ensures OTLP_HTTP[1] == 'o' && OTLP_HTTP_HEADERS[1] == 'o' && OTLP_GRPC[1] == 'o' && OTLP_GRPC_HEADERS[1] == 'o'
  {}

  /** Purging and stripping leave the tj table its owner. */
  lemma {:induction false} OwnerKept(content: string)
    requires Neat(EVERY, content)
    ensures Owns(StripOtelTables(Purge(content))) <==> Owns(content)
  {
    hide Owns, Header, Neat, KeptLines, HasLegacyOtel, Cut, CutAll, Collapse, Trim, Tidied, EVERY;
    OtherHeaders();
    OursAreHeaders();
    var c := Cut(OCW_SERVER, content);
    CutKeeps(EVERY, OCW_SERVER, content);
    OwnsCut(EVERY, OCW_SERVER, content);
    var x := if HasLegacyOtel(c) then CutAll(PURGE_ORDER, c) else c;
    CutAllKeeps(EVERY, PURGE_ORDER, c, {});
    OwnsCutAll(EVERY, PURGE_ORDER, c);
    OwnsCollapsed(x);
    OwnsTidied(Collapse(x));
    TidyKeeps(EVERY, x, {});
    var p := Purge(content);
    OwnsCutAll(EVERY, STRIP_ORDER, p);
    OwnsTrimmed(CutAll(STRIP_ORDER, p));
  }

  lemma {:induction false} OwnerInFront(block: string, w: string)
    requires TomlBlock(block)
    ensures OwnsServer(Canon(block, w)) <==> Owns(w)
  {
    hide Owns, OwnsServer, TomlBlock, Occurs, ManagedClear;
    BlockFacts(block);
    SpacedFacts(w, block);
    OwnsMeans(Canon(block, w));
    OwnsBehind(Spaced(w), block);
    if w != "" {
      NewlineIsSpace();
      assert Spaced(w) == w + ['\n'] + ['\n'];
      OwnsBeforeSpace(w, '\n');
      OwnsBeforeSpace(w + ['\n'], '\n');
    }
  }

  /** The text of the first tj server table of a file. */
  function TableText(content: string): string { Joined(ServerTable(Lines(content))) }

  /**
   The tables a forced rewrite takes out of a file: always the legacy server and the otel tables; the tj
   server's exactly when its table holds the note or an assignment of "tj" to `command`.
   */
  lemma {:induction false} TakenOutExactly(block: string, content: string)
    requires TomlBlock(block) && Neat(EVERY, content)
    ensures TakenOut(block, content) == if Marked(TableText(content)) then OURS + {TJ_SERVER} else OURS
  {
    hide Owns, OwnsServer, TomlBlock, Marked, Header, OursAnywhere, Joined, Lines, StripOtelTables, Purge, Flush;
    OwnerKept(content);
    OwnerInFront(block, StripOtelTables(Purge(content)));
    ServerHeadsOnly(content);
    OwnsTable(content);
    OursIsMarked(TableText(content));
  }

  lemma {:induction false} ServerHeadsOnly(content: string)
    requires Neat(EVERY, content)
    ensures HeadsOnly({TJ_SERVER}, Lines(content))
  {}

  // ---------------------------------------------------------------------
  // A server of the user's
  // ---------------------------------------------------------------------

  /** `command = "x"` */
  function CommandLine(x: string): string { "command" + (" = \"" + (x + "\"")) }

  ghost predicate Plain(x: string) { '"' !in x && '\n' !in x && !Occurs("command", x) }

  ghost predicate CallsOther(line: string, x: string) { line == CommandLine(x) && Plain(x) && x != "tj" }

  /** A line that names no command, or names one that is not tj, and has no note. */
  ghost predicate Foreign(line: string) {
    && !Occurs("Managed by tj", line)
    && (!Occurs("command", line) || exists x :: CallsOther(line, x))
  }

  /** A table of such lines is not marked, and a forced rewrite keeps all of them that are not blank. */
  lemma {:induction false} ForeignServerStays(block: string, parsed: bool, content: string)
    requires TomlBlock(block) && Neat(EVERY, content) && Count(TJ_SERVER, content) <= 1
    requires forall line :: line in ServerTable(Lines(content)) ==> Foreign(line)
    ensures var r, k := KeptLines({}, Rewrite(block, parsed, content)), KeptLines(OURS, content);
            && |r| >= |k| && UpToTheEnd(r[..|k|], k) && r[|k|..] == KeptLines({}, block)
            && forall line :: line in ServerTable(Lines(content)) && !Blank(line) ==> line in k
  {
    hide TomlBlock, Neat, Count, Foreign, Lines, OURS, UpToTheEnd, Marked, Rewrite, Joined, Kept;
    var table := ServerTable(Lines(content));
    ForeignText(table);
    OursIsMarked(Joined(table));
    TakenOutExactly(block, content);
    ForeignTablesSurvive(block, parsed, content);
    TableIsKept(Lines(content), false);
  }

  lemma {:induction false} TableIsKept(lines: seq<string>, inside: bool)
    ensures forall l :: l in ServerTable(lines) && !Blank(l) ==> l in Kept(OURS, lines, inside)
  {
    hide OURS, Trim;
    if lines != [] {
      if TJ_SERVER <= lines[0] {
        NotOtel(lines[0]);
        RestIsKept(lines[1..]);
      } else {
        TableIsKept(lines[1..], inside);
        TableIsKept(lines[1..], false);
        TableIsKept(lines[1..], true);
      }
    }
  }

  lemma {:induction false} NotOtel(line: string)
    requires TJ_SERVER <= line
    ensures Opens(line) && !Managed(OURS, line)
  {
    hide Header;
    OursAreHeaders();
    OtherHeaders();
    forall h | h in OURS ensures !(h <= line) {
      if h <= line {
        OneHeaderOnly(h, TJ_SERVER, line);
      }
    }
  }

  lemma {:induction false} RestIsKept(lines: seq<string>)
    ensures forall l :: l in UpToBracket(lines) && !Blank(l) ==> l in Kept(OURS, lines, false)
  {
    hide OURS, Trim;
    if lines != [] && !Opens(lines[0]) {
      RestIsKept(lines[1..]);
    }
  }

  lemma {:induction false} ForeignText(lines: seq<string>)
    requires forall line :: line in lines ==> Foreign(line)
    ensures !IsOurs(Joined(lines))
  {
    hide Occurs, HasTjCommand, Foreign;
    if lines == [] {
      NothingIsOurs();
      OursIsAnywhere("");
    } else {
      var l := lines[0];
      assert lines == [l] + lines[1..] && l in lines;
      JoinedStep(l, lines[1..]);
      if |lines| == 1 {
        ForeignFront(l, "");
        assert l + "" == l;
        NothingIsOurs();
        OursIsAnywhere("");
      } else {
        var rest := Joined(lines[1..]);
        ForeignText(lines[1..]);
        ForeignFront(l, "\n" + rest);
        assert l + "\n" + rest == l + ("\n" + rest);
        NewlineInFront(rest);
      }
    }
  }

  lemma {:induction false} NewlineInFront(rest: string)
    ensures IsOurs("\n" + rest) <==> IsOurs(rest)
  {
    hide Occurs, HasTjCommand;
    var t := "\n" + rest;
    assert t[1..] == rest;
    OursIsAnywhere(t);
    OursIsAnywhere(rest);
    NewlineStartsNothing(t);
  }

  lemma {:induction false} ForeignFront(l: string, r: string)
    requires Foreign(l) && (r == "" || r[0] == '\n')
    ensures IsOurs(l + r) <==> IsOurs(r)
  {
    hide Occurs, HasTjCommand, CommandLine, Plain;
    OursWords();
    WordInFront("Managed by tj", l, r);
    if Occurs("command", l) {
      var x :| CallsOther(l, x);
      CommandInFront(x, r);
    } else {
      NoCommandInFront(l, r);
    }
  }

  lemma {:induction false} WordInFront(g: string, l: string, r: string)
    requires g != "" && Fence(r) && forall k :: 0 <= k < |g| ==> g[k] != '[' && g[k] != '\n'
    ensures Occurs(g, l + r) <==> Occurs(g, l) || Occurs(g, r)
  {
    if l == "" {
      assert l + r == r;
    } else {
      assert (l + r)[1..] == l[1..] + r;
      WordBound(g, l, r);
      WordInFront(g, l[1..], r);
    }
  }

  lemma {:induction false} NoCommandInFront(l: string, r: string)
    requires !Occurs("command", l) && Fence(r)
    ensures HasTjCommand(l + r) <==> HasTjCommand(r)
  {
    OursWords();
    if l == "" {
      assert l + r == r;
    } else {
      assert (l + r)[1..] == l[1..] + r;
      WordBound("command", l, r);
      NoCommandInFront(l[1..], r);
    }
  }

  lemma {:induction false} CommandInFront(x: string, r: string)
    requires Plain(x) && Fence(r)
    ensures HasTjCommand(CommandLine(x) + r) <==> x == "tj" || HasTjCommand(r)
  {
    hide Occurs, CommandHere;
    var l := CommandLine(x);
    assert (l + r)[1..] == l[1..] + r;
    ThisCommand(x, r);
    OneCommand(x);
    NoCommandInFront(l[1..], r);
  }

  lemma {:induction false} ThisCommand(x: string, r: string)
    requires '"' !in x
    ensures CommandHere(CommandLine(x) + r) <==> x == "tj"
  {
    var t := CommandLine(x) + r;
    var v := "\"" + (x + "\"") + r;
    assert t[7..] == " " + ("= " + v);
    TrimsBlank(" ", "= " + v);
    assert ("= " + v)[1..] == " " + v;
    TrimsBlank(" ", v);
    QuotedIs(x, r);
  }

  lemma {:induction false} QuotedIs(x: string, r: string)
    requires '"' !in x
    ensures "\"tj\"" <= "\"" + (x + "\"") + r <==> x == "tj"
  {
    var g, t := "\"tj\"", "\"" + (x + "\"") + r;
    assert t[0] == '"' && t[|x| + 1] == '"' && t[1..|x| + 1] == x;
    assert g[1..3] == "tj" && g[3] == '"' && |g| == 4;
    if g <= t {
      assert t[1] == 't' && t[2] == 'j' && t[3] == '"';
      assert |x| == 2;
    }
    if x == "tj" {
      assert t[..4] == g;
    }
  }

  lemma {:induction false} OneCommand(x: string)
    requires !Occurs("command", x)
    ensures !Occurs("command", CommandLine(x)[1..])
  {
    hide Occurs;
    var a, b := "ommand = \"", x + "\"";
    assert CommandLine(x)[1..] == a + b;
    OccursNeedsHead("command", "\"");
    OccursNeedsHead("command", a);
    OtherCharacter("command", x, '"');
    NoHeadInFront("command", a, b);
  }

  lemma {:induction false} NoHeadInFront(p: string, a: string, b: string)
    requires p != "" && p[0] !in a && !Occurs(p, b)
    ensures !Occurs(p, a + b)
  {
    if a == "" {
      assert a + b == b;
    } else {
      assert (a + b)[1..] == a[1..] + b;
      NoHeadInFront(p, a[1..], b);
    }
  }

  // ---------------------------------------------------------------------
  // A file with one server
  // ---------------------------------------------------------------------

  /** A file of a tj server table and nothing else. */
  function OneServer(x: string): string { Unlines([TJ_SERVER, CommandLine(x)]) }

  /** Its lines survive a forced rewrite exactly when the command is not tj. */
  lemma {:induction false} OneServerStays(block: string, parsed: bool, x: string)
    requires TomlBlock(block) && Plain(x) && '[' !in x && !Occurs("Managed by tj", x)
    ensures KeptLines({}, Rewrite(block, parsed, OneServer(x)))
         == (if x == "tj" then [] else [TJ_SERVER, CommandLine(x)]) + KeptLines({}, block)
  {
    hide TomlBlock, Neat, Count, Lines, EVERY, OURS, UpToTheEnd, Marked, Rewrite, Joined, Kept, CommandLine, TakenOut,
         IsOurs;
    var content := OneServer(x);
    var r := KeptLines({}, Rewrite(block, parsed, content));
    OneServerLines(x);
    OneServerIsNeat(x);
    OneServerOwner(x);
    TakenOutExactly(block, content);
    OursIsMarked(TableText(content));
    ForeignTablesSurvive(block, parsed, content);
    OneServerKept(x);
    if x == "tj" {
      assert r[..0] == [] && r == r[0..];
    } else {
      SolidEnd(CommandLine(x)) by { CommandEnds(x); }
      SameEnd(r[..2], [TJ_SERVER, CommandLine(x)]);
      assert r == r[..2] + r[2..];
    }
  }

  lemma {:induction false} SameEnd(a: seq<string>, b: seq<string>)
    requires UpToTheEnd(a, b) && b != [] && TrimRight(b[|b| - 1]) == b[|b| - 1]
    ensures a == b
  {
    var n := |b| - 1;
    TrimRightShape(a[n]);
    assert a == a[..n] + [a[n]] && b == b[..n] + [b[n]];
  }

  lemma {:induction false} CommandEnds(x: string)
    ensures var l := CommandLine(x); l != "" && !IsSpace(l[|l| - 1]) && l[0] == 'c' && !Opens(l) && !Blank(l)
  {
    var l := CommandLine(x);
    assert l[0] == 'c' && !IsSpace(l[0]);
    assert l[|l| - 1] == '"';
  }

  lemma {:induction false} OneServerLines(x: string)
    requires '\n' !in x
    ensures Lines(OneServer(x)) == [TJ_SERVER, CommandLine(x), ""]
    ensures ServerTable(Lines(OneServer(x))) == [TJ_SERVER, CommandLine(x), ""]
  {
    hide Lines;
    var lines := [TJ_SERVER, CommandLine(x)];
    ServerHeaders();
    CommandEnds(x);
    LinesOfUnlines(lines);
    var rest := [CommandLine(x), ""];
    assert lines + [""] == [TJ_SERVER] + rest;
    assert rest[1..] == [""] && [""][1..] == [];
    assert UpToBracket([""]) == [""];
    assert UpToBracket(rest) == [CommandLine(x)] + [""];
  }

  lemma {:induction false} OneServerText(x: string)
    requires '\n' !in x
    ensures TableText(OneServer(x)) == TJ_SERVER + ("\n" + (CommandLine(x) + "\n"))
  {
    hide Lines, CommandLine, Joined;
    OneServerLines(x);
    var l := CommandLine(x);
    JoinedStep("", []);
    JoinedStep(l, [""]);
    JoinedStep(TJ_SERVER, [l, ""]);
    assert [""] + [] == [""] && [l] + [""] == [l, ""] && [TJ_SERVER] + [l, ""] == [TJ_SERVER, l, ""];
    assert l + "\n" + "" == l + "\n";
    assert TJ_SERVER + "\n" + (l + "\n") == TJ_SERVER + ("\n" + (l + "\n"));
  }

  lemma {:induction false} OneServerOwner(x: string)
    requires Plain(x) && !Occurs("Managed by tj", x)
    ensures IsOurs(TableText(OneServer(x))) <==> x == "tj"
  {
    hide CommandLine, IsOurs, TableText, Occurs, OneServer;
    OneServerText(x);
    HeaderInFront("\n" + (CommandLine(x) + "\n"));
    NewlineInFront(CommandLine(x) + "\n");
    CommandNewline(x);
  }

  lemma {:induction false} NoCommandInHeader()
    ensures !Occurs("command", TJ_SERVER) && !Occurs("Managed by tj", TJ_SERVER)
  {
    hide Occurs;
    assert 'M' !in TJ_SERVER;
    OccursNeedsHead("Managed by tj", TJ_SERVER);
    FoundNot();
  }

  lemma {:induction false} FoundNot()
    ensures !Occurs("command", TJ_SERVER)
  {
    hide Occurs;
    var t := TJ_SERVER;
    assert t[0] == '[' && t[1] == 'm' && t[3] == 'p' && "command"[0] == 'c' && "command"[1] == 'o';
    HeaderRest();
    assert t[2..][1..] == t[3..] && t[2..][1] == t[3] && t[1..][1..] == t[2..];
    OccursNeedsHead("command", t[3..]);
    FirstDiffers("command", t[2..]);
    OtherHead("command", t[1..]);
    OtherHead("command", t);
  }

  lemma {:induction false} HeaderRest()
    ensures 'c' !in TJ_SERVER[3..]
  {}

  lemma {:induction false} OtherHead(p: string, t: string)
    requires p != "" && t != "" && p[0] != t[0] && !Occurs(p, t[1..])
    ensures !Occurs(p, t)
  {}

  lemma {:induction false} FirstDiffers(p: string, b: string)
    requires |p| > 1 && |b| > 1 && p[1] != b[1] && !Occurs(p, b[1..])
    ensures !Occurs(p, b)
  {}

  lemma {:induction false} HeaderInFront(r: string)
    requires Fence(r)
    ensures IsOurs(TJ_SERVER + r) <==> IsOurs(r)
  {
    hide Occurs, HasTjCommand;
    OursWords();
    NoCommandInHeader();
    WordInFront("Managed by tj", TJ_SERVER, r);
    NoCommandInFront(TJ_SERVER, r);
  }

  lemma {:induction false} CommandNewline(x: string)
    requires Plain(x) && !Occurs("Managed by tj", x)
    ensures IsOurs(CommandLine(x) + "\n") <==> x == "tj"
  {
    hide Occurs, HasTjCommand;
    CommandInFront(x, "\n");
    assert "\n" == "\n" + "";
    NewlineInFront("");
    OursIsAnywhere("");
    NothingIsOurs();
    NoNote(x);
  }

  lemma {:induction false} NoNote(x: string)
    requires !Occurs("Managed by tj", x)
    ensures !Occurs("Managed by tj", CommandLine(x) + "\n")
  {
    hide Occurs;
    OtherCharacter("Managed by tj", x, '"');
    OtherCharacter("Managed by tj", x + "\"", '\n');
    var a, b := "command = \"", x + "\"" + "\n";
    NoHeadInFront("Managed by tj", a, b);
    assert a + b == CommandLine(x) + "\n";
  }

  lemma {:induction false} OneServerKept(x: string)
    requires '\n' !in x
    ensures KeptLines(OURS, OneServer(x)) == [TJ_SERVER, CommandLine(x)]
    ensures KeptLines(OURS + {TJ_SERVER}, OneServer(x)) == []
  {
    hide Lines, OURS, CommandLine, Trim;
    OneServerLines(x);
    NotOtel(TJ_SERVER);
    CommandEnds(x);
    var rest := [CommandLine(x), ""];
    var lines := [TJ_SERVER, CommandLine(x), ""];
    assert lines[1..] == rest && rest[1..] == [""];
    assert Kept(OURS, [""], false) == [] by { OneLineKept(OURS, "", false); }
    assert Kept(OURS, rest, false) == [CommandLine(x)];
    assert Managed(OURS + {TJ_SERVER}, TJ_SERVER) by { ManagedHead(OURS + {TJ_SERVER}, TJ_SERVER); }
    InsideNothingOpens(OURS + {TJ_SERVER}, rest);
  }

  lemma {:induction false} OneServerIsNeat(x: string)
    requires Plain(x) && '[' !in x
    ensures Neat(EVERY, OneServer(x)) && Count(TJ_SERVER, OneServer(x)) <= 1
  {
    hide Header, EVERY, HeadOnly, Flush, Count, CommandLine, Lines, Occurs;
    OneServerLines(x);
    OursAreHeaders();
    var l, lines := CommandLine(x), [TJ_SERVER, CommandLine(x), ""];
    NoBracketThere(x);
    forall h, line | h in EVERY && line in lines ensures HeadOnly(h, line) {
      HeadsThere(h, line);
    }
    assert Flush(lines) by { ServerHeaders(); BracketIsFlush(lines); }
    var tail := Unlines([l]);
    assert Unlines([TJ_SERVER, l]) == TJ_SERVER + ("\n" + tail) by {
      assert [TJ_SERVER, l][1..] == [l];
    }
    assert tail == l + "\n" + "" by {
      assert [l][1..] == [];
      assert Unlines([]) == "";
    }
    NoBracketThere(x);
    OnceInFront("\n" + tail);
  }

  lemma {:induction false} NoBracketThere(x: string)
    requires '[' !in x
    ensures '[' !in CommandLine(x) && '[' !in TJ_SERVER[1..]
  {}

  lemma {:induction false} HeadsThere(h: string, line: string)
    requires Header(h) && (line == "" || '[' !in line[1..])
    ensures HeadOnly(h, line)
  {
    if line != "" {
      OccursNeedsHead(h, line[1..]);
    }
  }

  lemma {:induction false} OnceInFront(r: string)
    requires '[' !in r
    ensures Count(TJ_SERVER, TJ_SERVER + r) <= 1
  {
    var t := TJ_SERVER + r;
    assert t[1..] == TJ_SERVER[1..] + r;
    NoBracketThere("");
    OccursNeedsHead(TJ_SERVER, t[1..]);
    CountZero(TJ_SERVER, t[1..]);
  }
}

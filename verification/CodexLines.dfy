/**
 What the forced rewrite of ~/.codex/config.toml keeps, line by line
 (tokenjam/cli/cmd_onboard.py): every line outside the managed tables, in order.
 */
module CodexLines {
  import opened TextScan
  import opened Codex
  import opened CodexScans
  import opened CodexRewrite
  import opened CodexConverges

  /** The text split at its newlines. */
  function Lines(t: string): (r: seq<string>)
    ensures |r| > 0
  {
    if t == "" then [""]
    else if t[0] == '\n' then [""] + Lines(t[1..])
    else var r := Lines(t[1..]); [[t[0]] + r[0]] + r[1..]
  }

  predicate Opens(line: string) { line != "" && line[0] == '[' }

  predicate Managed(hs: set<string>, line: string) { exists h :: h in hs && h <= line }

  /**
   The non-blank lines that stand outside the tables whose headers are in `hs`.  A table runs to the
   next line that opens with a bracket.
   */
  function Kept(hs: set<string>, lines: seq<string>, inside: bool): seq<string> {
    if lines == [] then []
    else if Opens(lines[0]) then
      if Managed(hs, lines[0]) then Kept(hs, lines[1..], true)
      else [lines[0]] + Kept(hs, lines[1..], false)
    else if inside || Blank(lines[0]) then Kept(hs, lines[1..], inside)
    else [lines[0]] + Kept(hs, lines[1..], inside)
  }

  function KeptLines(hs: set<string>, t: string): seq<string> { Kept(hs, Lines(t), false) }

  /** The same lines, but that the last one may have lost white space at its end. */
  ghost predicate UpToTheEnd(a: seq<string>, b: seq<string>) {
    && |a| == |b|
    && (a != [] ==>
          var n := |a| - 1;
          a[..n] == b[..n] && a[n] <= b[n] && TrimRight(a[n]) == TrimRight(b[n]))
  }

  /** The header, where the line holds it, is where the line starts. */
  ghost predicate HeadOnly(h: string, line: string) { line == "" || !Occurs(h, line[1..]) }

  ghost predicate HeadsOnly(hs: set<string>, lines: seq<string>) {
    forall h, line :: h in hs && line in lines ==> HeadOnly(h, line)
  }

  /** The first line that is not blank is not indented. */
  predicate Flush(lines: seq<string>) {
    lines == [] || (if Blank(lines[0]) then Flush(lines[1..]) else !IsSpace(lines[0][0]))
  }

  /** A file in which a managed header is found only at the start of a line. */
  ghost predicate Neat(hs: set<string>, t: string) {
    Flush(Lines(t)) && HeadsOnly(hs, Lines(t)) && forall h :: h in hs ==> Header(h)
  }

  // ---------------------------------------------------------------------
  // Lines
  // ---------------------------------------------------------------------

  lemma {:induction false} LinesWord(g: string, u: string)
    requires OneLine(g)
    ensures Lines(g + u) == [g + Lines(u)[0]] + Lines(u)[1..]
  {
    if g == "" {
      assert g + u == u && "" + Lines(u)[0] == Lines(u)[0];
    } else {
      assert (g + u)[1..] == g[1..] + u && g[0] != '\n';
      LinesWord(g[1..], u);
      assert [g[0]] + (g[1..] + Lines(u)[0]) == g + Lines(u)[0];
    }
  }

  lemma {:induction false} LinesJoin(a: string, b: string)
    ensures Lines(a + "\n" + b) == Lines(a) + Lines(b)
  {
    var t := a + "\n" + b;
    if a == "" {
      assert t[1..] == b;
    } else {
      assert t[1..] == a[1..] + "\n" + b;
      LinesJoin(a[1..], b);
    }
  }

  lemma {:induction false} FirstLine(g: string, t: string)
    requires OneLine(g)
    ensures g <= t <==> g <= Lines(t)[0]
  {
    if g != "" && t != "" {
      if t[0] == '\n' {
        assert g[0] != '\n';
      } else {
        FirstLine(g[1..], t[1..]);
        var l := Lines(t)[0];
        assert l[1..] == Lines(t[1..])[0];
        assert g <= t <==> g[0] == t[0] && g[1..] <= t[1..];
        assert g <= l <==> g[0] == l[0] && g[1..] <= l[1..];
      }
    }
  }

  // ---------------------------------------------------------------------
  // Cutting, line by line
  // ---------------------------------------------------------------------

  function FromBracket(lines: seq<string>): (r: seq<string>)
    ensures |r| <= |lines|
  {
    if lines == [] || Opens(lines[0]) then lines else FromBracket(lines[1..])
  }

  function CutLines(h: string, lines: seq<string>): seq<string>
    decreases |lines|
  {
    if lines == [] then []
    else if h <= lines[0] then [""] + CutLines(h, FromBracket(lines[1..]))
    else [lines[0]] + CutLines(h, lines[1..])
  }

  lemma {:induction false} SectionEndLines(u: string)
    ensures Lines(SectionEnd(u)) == [""] + FromBracket(Lines(u)[1..])
  {
    if u != "" {
      FirstLine("[", u[1..]);
      assert "\n[" <= u <==> u[0] == '\n' && "[" <= u[1..] by {
        assert "\n["[1..] == "[";
      }
      if !("\n[" <= u) {
        SectionEndLines(u[1..]);
      }
    }
  }

  lemma {:induction false} CutAtStart(h: string, t: string)
    requires Header(h) && HeadsOnly({h}, Lines(t))
    ensures Lines(Cut(h, t)) == CutLines(h, Lines(t))
    decreases |t|, 1
  {
    hide Occurs, Cut, SectionEnd;
    FirstLine(h, t);
    if t == "" {
      CutNewline(h, "");
    } else if h <= t {
      hide Header, HeadsOnly, CutLines, FromBracket, Lines;
      var r := SectionEnd(t[|h|..]);
      CutHead(h, t);
      AfterHead(h, t, r);
      if r == "" {
        CutNewline(h, "");
      } else {
        CutNewline(h, r[1..]);
        CutAtStart(h, r[1..]);
        NewlineFirst(Cut(h, r[1..]));
      }
    } else {
      CutChar(h, t);
      if t[0] == '\n' {
        assert Lines(t)[1..] == Lines(t[1..]);
        CutAtStart(h, t[1..]);
      } else {
        assert Lines(t)[0][1..] == Lines(t[1..])[0] && Lines(t)[1..] == Lines(t[1..])[1..];
        assert Lines(t)[0] in Lines(t) && h in {h};
        CutInLine(h, t[1..]);
      }
    }
  }

  lemma {:induction false} NewlineFirst(t: string)
    ensures Lines("\n" + t) == [""] + Lines(t) && Lines("") == [""]
  {
    assert ("\n" + t)[1..] == t;
  }

  /** The text behind a table, and its lines. */
  lemma {:induction false} AfterHead(h: string, t: string, r: string)
    requires Header(h) && h <= t && r == SectionEnd(t[|h|..]) && HeadsOnly({h}, Lines(t))
    ensures r == "" ==> CutLines(h, Lines(t)) == [""]
    ensures r != "" ==> r == "\n" + r[1..] && |r[1..]| < |t| && HeadsOnly({h}, Lines(r[1..]))
    ensures r != "" ==> CutLines(h, Lines(t)) == [""] + CutLines(h, Lines(r[1..]))
  {
    hide Occurs, SectionEnd, Header, HeadOnly;
    var u := t[|h|..];
    assert OneLine(h) by { HeaderIsOneLine(h); }
    FirstLine(h, t);
    assert t == h + u;
    LinesWord(h, u);
    SectionEndLines(u);
    SectionEndShape(u);
    FromBracketPart(Lines(u)[1..]);
    assert Lines(t)[1..] == Lines(u)[1..];
    if r != "" {
      assert r == "\n" + r[1..];
      NewlineFirst(r[1..]);
      assert Lines(r)[1..] == Lines(r[1..]) == FromBracket(Lines(t)[1..]);
      PartHeadsOnly({h}, Lines(r[1..]), Lines(t));
    } else {
      assert Lines(r)[1..] == [] == FromBracket(Lines(t)[1..]);
    }
  }

  lemma {:induction false} HeaderIsOneLine(h: string)
    requires Header(h)
    ensures OneLine(h)
  {}

  lemma {:induction false} FromBracketPart(lines: seq<string>)
    ensures forall l :: l in FromBracket(lines) ==> l in lines
    ensures FromBracket(lines) == [] || Opens(FromBracket(lines)[0])
  {
    if lines != [] && !Opens(lines[0]) {
      FromBracketPart(lines[1..]);
    }
  }

  lemma {:induction false} CutInLine(h: string, t: string)
    requires Header(h) && !Occurs(h, Lines(t)[0])
    requires HeadsOnly({h}, Lines(t)[1..])
    ensures Lines(Cut(h, t)) == [Lines(t)[0]] + CutLines(h, Lines(t)[1..])
    decreases |t|, 0
  {
    hide Cut;
    FirstLine(h, t);
    if t == "" {
      CutNewline(h, "");
    } else {
      CutChar(h, t);
      if t[0] == '\n' {
        assert Lines(t)[1..] == Lines(t[1..]);
        CutAtStart(h, t[1..]);
      } else {
        assert Lines(t)[0][1..] == Lines(t[1..])[0] && Lines(t)[1..] == Lines(t[1..])[1..];
        CutInLine(h, t[1..]);
      }
    }
  }

  lemma {:induction false} InsideToBracket(hs: set<string>, lines: seq<string>, inside: bool)
    ensures Kept(hs, lines, true) == Kept(hs, FromBracket(lines), inside)
  {
    if lines != [] && !Opens(lines[0]) {
      InsideToBracket(hs, lines[1..], inside);
    }
  }

  /** Cutting a table is the same as not keeping it. */
  lemma {:induction false} KeptOfCut(hs: set<string>, h: string, lines: seq<string>, inside: bool)
    requires Header(h)
    ensures Kept(hs, CutLines(h, lines), inside) == Kept(hs + {h}, lines, inside)
    decreases |lines|
  {
    hide Trim;
    if lines != [] {
      var cut := CutLines(h, lines);
      if h <= lines[0] {
        var r := FromBracket(lines[1..]);
        KeptOfCut(hs, h, r, inside);
        InsideToBracket(hs + {h}, lines[1..], inside);
        assert Managed(hs + {h}, lines[0]);
        assert cut[0] == "" && cut[1..] == CutLines(h, r);
      } else {
        assert Managed(hs + {h}, lines[0]) <==> Managed(hs, lines[0]);
        assert cut[1..] == CutLines(h, lines[1..]);
        KeptOfCut(hs, h, lines[1..], inside);
        KeptOfCut(hs, h, lines[1..], true);
        KeptOfCut(hs, h, lines[1..], false);
      }
    }
  }

  lemma {:induction false} CutLinesPart(h: string, lines: seq<string>)
    requires Header(h)
    ensures forall l :: l in CutLines(h, lines) ==> l == "" || l in lines
    ensures Flush(lines) ==> Flush(CutLines(h, lines))
    decreases |lines|
  {
    if lines != [] {
      if h <= lines[0] {
        FromBracketPart(lines[1..]);
        CutLinesPart(h, FromBracket(lines[1..]));
      } else {
        CutLinesPart(h, lines[1..]);
      }
    }
  }

  lemma {:induction false} CutKeeps(hs: set<string>, h: string, t: string)
    requires Neat(hs, t) && h in hs
    ensures Neat(hs, Cut(h, t))
    ensures forall gs :: KeptLines(gs, Cut(h, t)) == KeptLines(gs + {h}, t)
  {
    hide Cut, Kept, Occurs, CutLines;
    CutAtStart(h, t);
    CutLinesPart(h, Lines(t));
    forall gs ensures KeptLines(gs, Cut(h, t)) == KeptLines(gs + {h}, t) {
      KeptOfCut(gs, h, Lines(t), false);
    }
    PartHeadsOnly(hs, CutLines(h, Lines(t)), Lines(t));
  }

  lemma {:induction false} PartHeadsOnly(hs: set<string>, part: seq<string>, lines: seq<string>)
    requires HeadsOnly(hs, lines) && forall l :: l in part ==> l == "" || l in lines
    ensures HeadsOnly(hs, part)
  {
  }

  lemma {:induction false} CutAllKeeps(hs: set<string>, order: seq<string>, t: string, gs: set<string>)
    requires Neat(hs, t) && forall h :: h in order ==> h in hs
    requires Headers(order)
    ensures Neat(hs, CutAll(order, t))
    ensures KeptLines(gs, CutAll(order, t)) == KeptLines(gs + (set h | h in order), t)
  {
    hide Cut, KeptLines, Neat;
    if order == [] {
      assert gs + (set h | h in order) == gs;
    } else {
      var rest := order[1..];
      CutKeeps(hs, order[0], t);
      CutAllKeeps(hs, rest, Cut(order[0], t), gs);
      assert gs + (set h | h in order) == gs + (set h | h in rest) + {order[0]};
    }
  }

  // ---------------------------------------------------------------------
  // Tidying, line by line
  // ---------------------------------------------------------------------

  lemma {:induction false} CollapseLines(hs: set<string>, t: string)
    ensures Lines(Collapse(t))[0] == Lines(t)[0]
    ensures Kept(hs, Lines(Collapse(t))[1..], true) == Kept(hs, Lines(t)[1..], true)
    ensures Kept(hs, Lines(Collapse(t))[1..], false) == Kept(hs, Lines(t)[1..], false)
    ensures Flush(Lines(Collapse(t))[1..]) == Flush(Lines(t)[1..])
    ensures forall l :: l in Lines(Collapse(t))[1..] ==> l in Lines(t)[1..]
  {
    hide Trim, Managed;
    if t != "" {
      CollapseLines(hs, t[1..]);
      CollapseStep(t);
      var c, u := Lines(Collapse(t)), Lines(t);
      var d, v := Lines(Collapse(t[1..])), Lines(t[1..]);
      if "\n\n\n" <= t {
        assert t[0] == "\n\n\n"[0] && t[1] == "\n\n\n"[1];
        assert u[1..] == v && v[0] == "";
      } else if t[0] == '\n' {
        assert Collapse(t)[1..] == Collapse(t[1..]);
        assert u[1..] == v && c[1..] == d;
      } else {
        assert Collapse(t)[1..] == Collapse(t[1..]);
        assert u[1..] == v[1..] && c[1..] == d[1..];
      }
    }
  }

  lemma {:induction false} CollapseKeeps(hs: set<string>, t: string, gs: set<string>)
    requires Neat(hs, t)
    ensures Neat(hs, Collapse(t)) && KeptLines(gs, Collapse(t)) == KeptLines(gs, t)
  {
    hide Collapse, Occurs, Lines, Trim;
    CollapseLines(gs, t);
    var c, u := Lines(Collapse(t)), Lines(t);
    assert forall l :: l in c ==> l in u by {
      assert c == [c[0]] + c[1..] && u == [u[0]] + u[1..];
    }
    PartHeadsOnly(hs, c, u);
  }

  lemma {:induction false} TrimLeftKeeps(hs: set<string>, t: string, gs: set<string>)
    requires Neat(hs, t)
    ensures Neat(hs, TrimLeft(t)) && KeptLines(gs, TrimLeft(t)) == KeptLines(gs, t)
  {
    hide Occurs, Trim, Managed;
    if t != "" && IsSpace(t[0]) {
      var u, v := Lines(t), Lines(t[1..]);
      if t[0] == '\n' {
        assert u[1..] == v;
        assert forall l :: l in v ==> l in u;
        PartHeadsOnly(hs, v, u);
      } else {
        assert u[0][0] == t[0] && u[0][1..] == v[0] && u[1..] == v[1..];
        assert Blank(v[0]);
        assert !Opens(u[0]) && !Opens(v[0]);
        forall h, l | h in hs && l in v ensures HeadOnly(h, l) {
          if l in v[1..] {
            assert l in u;
          } else {
            BlankHasNoHeader(h, v[0]);
          }
        }
      }
      TrimLeftKeeps(hs, t[1..], gs);
    }
  }

  lemma {:induction false} BlankHasNoHeader(h: string, line: string)
    requires Header(h) && Blank(line)
    ensures HeadOnly(h, line)
  {
    if line != "" {
      OccursNeedsHead(h, line[1..]);
    }
  }

  function State(hs: set<string>, lines: seq<string>, inside: bool): bool {
    if lines == [] then inside
    else State(hs, lines[1..], if Opens(lines[0]) then Managed(hs, lines[0]) else inside)
  }

  lemma {:induction false} KeptJoin(hs: set<string>, a: seq<string>, b: seq<string>, inside: bool)
    ensures Kept(hs, a + b, inside) == Kept(hs, a, inside) + Kept(hs, b, State(hs, a, inside))
  {
    hide Trim, Managed;
    if a == [] {
      assert a + b == b;
    } else {
      assert (a + b)[1..] == a[1..] + b;
      KeptJoin(hs, a[1..], b, if Opens(a[0]) then Managed(hs, a[0]) else inside);
    }
  }

  lemma {:induction false} FlushJoin(a: seq<string>, l: string, m: string)
    requires Flush(a + [l]) && (Blank(m) || (m <= l && m != ""))
    ensures Flush(a + [m])
  {
    if a != [] {
      assert (a + [l])[1..] == a[1..] + [l] && (a + [m])[1..] == a[1..] + [m];
      if Blank(a[0]) {
        FlushJoin(a[1..], l, m);
      }
    } else {
      assert [m][1..] == [] && [l][1..] == [];
    }
  }

  lemma {:induction false} OneLineKept(gs: set<string>, l: string, inside: bool)
    ensures Kept(gs, [l], inside) == if (if Opens(l) then Managed(gs, l) else inside || Blank(l)) then [] else [l]
  {
    hide Managed;
    assert [l][1..] == [];
  }

  lemma {:induction false} ShorterKept(front: seq<string>, l: string, c: char, gs: set<string>, inside: bool)
    requires IsSpace(c) && forall h :: h in gs ==> Header(h)
    ensures UpToTheEnd(front + Kept(gs, [l], inside), front + Kept(gs, [l + [c]], inside))
  {
    hide TrimRight, Header, Managed, IsSpace;
    var m := l + [c];
    OneLineKept(gs, l, inside);
    OneLineKept(gs, m, inside);
    TrimRightBlank(l, [c]);
    assert Opens(m) == Opens(l) by { NoBracket(l, c); }
    assert Blank(m) == Blank(l) by {
      assert forall k :: 0 <= k < |l| ==> m[k] == l[k];
      assert m[|l|] == c;
    }
    assert Managed(gs, m) <==> Managed(gs, l) by {
      forall h | h in gs ensures h <= m <==> h <= l {
        NoSpaceAtEnd(h, l, c);
      }
      SameHeads(gs, m, l);
    }
    assert (front + [l])[..|front|] == front && (front + [m])[..|front|] == front;
  }

  lemma {:induction false} NoBracket(l: string, c: char)
    requires IsSpace(c)
    ensures Opens(l + [c]) == Opens(l)
  {}

  lemma {:induction false} SameHeads(gs: set<string>, m: string, l: string)
    requires forall h :: h in gs ==> (h <= m <==> h <= l)
    ensures Managed(gs, m) <==> Managed(gs, l)
  {}

  /** The last line loses a character of white space. */
  lemma {:induction false} ShorterLast(hs: set<string>, a: seq<string>, l: string, c: char, gs: set<string>)
    requires IsSpace(c) && forall h :: h in hs + gs ==> Header(h)
    ensures UpToTheEnd(Kept(gs, a + [l], false), Kept(gs, a + [l + [c]], false))
    ensures HeadsOnly(hs, a + [l + [c]]) ==> HeadsOnly(hs, a + [l])
    ensures Flush(a + [l + [c]]) ==> Flush(a + [l])
  {
    hide Occurs, Header, UpToTheEnd, Kept;
    var m := l + [c];
    KeptJoin(gs, a, [m], false);
    KeptJoin(gs, a, [l], false);
    ShorterKept(Kept(gs, a, false), l, c, gs, State(gs, a, false));
    if HeadsOnly(hs, a + [m]) {
      assert m in a + [m];
      forall h | h in hs ensures HeadOnly(h, l) {
        assert HeadOnly(h, m);
        if l != "" {
          assert m[1..][..|l| - 1] == l[1..];
          FreeOfPrefix(h, m[1..], |l| - 1);
        }
      }
    }
    if Flush(a + [m]) {
      assert Blank(m) ==> Blank(l) by {
        assert forall k :: 0 <= k < |l| ==> l[k] == m[k];
      }
      assert l == "" ==> Blank(l);
      FlushJoin(a, m, l);
    }
  }

  lemma {:induction false} NoSpaceAtEnd(h: string, l: string, c: char)
    requires Header(h) && IsSpace(c)
    ensures h <= l + [c] <==> h <= l
  {
    assert (l + [c])[|l|] == c;
  }

  lemma {:induction false} TrimRightKeeps(hs: set<string>, t: string, gs: set<string>)
    requires Neat(hs, t) && forall h :: h in gs ==> Header(h)
    ensures Neat(hs, TrimRight(t)) && UpToTheEnd(KeptLines(gs, TrimRight(t)), KeptLines(gs, t))
  {
    hide Occurs, Managed, Kept, Flush, Lines, HeadsOnly, Header;
    if t != "" && IsSpace(t[|t| - 1]) {
      var s, c := t[..|t| - 1], t[|t| - 1];
      assert t == s + [c];
      LastCharacter(s, c);
      if c == '\n' {
        EmptyLast(hs, Lines(s), gs);
      } else {
        var a, l := Lines(s)[..|Lines(s)| - 1], Lines(s)[|Lines(s)| - 1];
        assert Lines(s) == a + [l];
        ShorterLast(hs, a, l, c, gs);
      }
      TrimRightKeeps(hs, s, gs);
      StillUpToTheEnd(KeptLines(gs, TrimRight(s)), KeptLines(gs, s), KeptLines(gs, t));
    }
  }

  lemma {:induction false} StillUpToTheEnd(a: seq<string>, b: seq<string>, c: seq<string>)
    requires UpToTheEnd(a, b) && UpToTheEnd(b, c)
    ensures UpToTheEnd(a, c)
  {}

  lemma {:induction false} LastCharacter(s: string, c: char)
    ensures Lines(s + [c]) == if c == '\n' then Lines(s) + [""]
                              else Lines(s)[..|Lines(s)| - 1] + [Lines(s)[|Lines(s)| - 1] + [c]]
  {
    if c == '\n' {
      assert s + [c] == s + "\n" + "";
      LinesJoin(s, "");
    } else if s == "" {
      LinesWord([c], "");
      assert s + [c] == [c] + "" && [c] + "" == "" + [c];
    } else {
      assert (s + [c])[1..] == s[1..] + [c] && (s + [c])[0] == s[0];
      LastCharacter(s[1..], c);
      LongerLast(s[0], c, Lines(s[1..]));
    }
  }

  /** The lines with `c` behind the last one. */
  function Grown(lines: seq<string>, c: char): (r: seq<string>)
    requires lines != []
    ensures r != []
  {
    lines[..|lines| - 1] + [lines[|lines| - 1] + [c]]
  }

  lemma {:induction false} LongerLast(a: char, c: char, r: seq<string>)
    requires r != []
    ensures [""] + Grown(r, c) == Grown([""] + r, c)
    ensures [[a] + Grown(r, c)[0]] + Grown(r, c)[1..] == Grown([[a] + r[0]] + r[1..], c)
  {
    if |r| == 1 {
      assert [a] + (r[0] + [c]) == [a] + r[0] + [c];
    }
  }

  lemma {:induction false} EmptyLast(hs: set<string>, lines: seq<string>, gs: set<string>)
    ensures Kept(gs, lines + [""], false) == Kept(gs, lines, false)
    ensures HeadsOnly(hs, lines + [""]) <==> HeadsOnly(hs, lines)
    ensures Flush(lines + [""]) <==> Flush(lines)
  {
    hide Occurs, Trim, Managed;
    KeptJoin(gs, lines, [""], false);
    assert Kept(gs, [""], State(gs, lines, false)) == [];
    FlushEmpty(lines);
  }

  lemma {:induction false} FlushEmpty(lines: seq<string>)
    ensures Flush(lines + [""]) <==> Flush(lines)
  {
    if lines == [] {
      assert (lines + [""])[1..] == [];
    } else {
      assert (lines + [""])[1..] == lines[1..] + [""];
      FlushEmpty(lines[1..]);
    }
  }

  lemma {:induction false} TrimKeeps(hs: set<string>, t: string, gs: set<string>)
    requires Neat(hs, t) && forall h :: h in gs ==> Header(h)
    ensures Neat(hs, Trim(t)) && UpToTheEnd(KeptLines(gs, Trim(t)), KeptLines(gs, t))
  {
    hide Neat, KeptLines, UpToTheEnd, Header, TrimLeft, TrimRight;
    TrimLeftKeeps(hs, t, gs);
    TrimRightKeeps(hs, TrimLeft(t), gs);
  }

  lemma {:induction false} TidyKeeps(hs: set<string>, t: string, gs: set<string>)
    requires Neat(hs, t) && forall h :: h in gs ==> Header(h)
    ensures Neat(hs, Tidied(Collapse(t))) && UpToTheEnd(KeptLines(gs, Tidied(Collapse(t))), KeptLines(gs, t))
  {
    hide UpToTheEnd, Header, Trim, Collapse, Kept, HeadsOnly, Flush, Lines;
    CollapseKeeps(hs, t, gs);
    TrimKeeps(hs, Collapse(t), gs);
    var w := Trim(Collapse(t));
    LastCharacter(w, '\n');
    EmptyLast(hs, Lines(w), gs);
  }

  // ---------------------------------------------------------------------
  // The rewrite
  // ---------------------------------------------------------------------

  /** The tables a forced rewrite takes out. */
  const OURS: set<string> :=
    {OCW_SERVER, OTEL, OTEL_RESOURCE, OTLP_HTTP, OTLP_HTTP_HEADERS, OTLP_GRPC, OTLP_GRPC_HEADERS}

  const EVERY: set<string> := OURS + {TJ_SERVER}

  lemma {:induction false} OursAreHeaders()
    ensures forall h :: h in EVERY ==> Header(h)
    ensures forall h :: h in STRIP_ORDER ==> h in OURS
    ensures forall h :: h in PURGE_ORDER ==> h in OURS
    ensures OURS == {OCW_SERVER} + (set h | h in STRIP_ORDER)
    ensures (set h | h in STRIP_ORDER) == (set h | h in PURGE_ORDER)
    ensures Headers(STRIP_ORDER) && Headers(PURGE_ORDER)
  {
    hide Header;
    OrdersAreHeaders();
    OtelHeaders();
    HttpHeader();
    HttpHeadersHeader();
    GrpcHeader();
    GrpcHeadersHeader();
    ServerHeaders();
    assert STRIP_ORDER == [OTEL, OTEL_RESOURCE, OTLP_HTTP, OTLP_HTTP_HEADERS, OTLP_GRPC, OTLP_GRPC_HEADERS];
  }

  /**
   Purging and stripping keep every line outside the managed tables, in order and as it is; only the
   last one may lose white space at its end.
   */
  lemma {:induction false} StripKeeps(content: string, gs: set<string>)
    requires Neat(EVERY, content) && gs <= EVERY
    ensures Neat(EVERY, StripOtelTables(Purge(content)))
    ensures UpToTheEnd(KeptLines(gs, StripOtelTables(Purge(content))), KeptLines(gs + OURS, content))
  {
    hide UpToTheEnd, Header, Trim, Collapse, Neat, KeptLines, HasLegacyOtel, Cut, CutAll, Tidied;
    OursAreHeaders();
    var tree := set h | h in STRIP_ORDER;
    var c := Cut(OCW_SERVER, content);
    CutKeeps(EVERY, OCW_SERVER, content);
    var x := if HasLegacyOtel(c) then CutAll(PURGE_ORDER, c) else c;
    if HasLegacyOtel(c) {
      CutAllKeeps(EVERY, PURGE_ORDER, c, gs + tree);
      assert gs + tree + (set h | h in PURGE_ORDER) == gs + tree;
    }
    assert Neat(EVERY, x) && KeptLines(gs + tree, x) == KeptLines(gs + tree, c);
    TidyKeeps(EVERY, x, gs + tree);
    var p := Purge(content);
    CutAllKeeps(EVERY, STRIP_ORDER, p, gs);
    TrimKeeps(EVERY, CutAll(STRIP_ORDER, p), gs);
    assert gs + tree + {OCW_SERVER} == gs + OURS;
    StillUpToTheEnd(KeptLines(gs, StripOtelTables(p)), KeptLines(gs + tree, p), KeptLines(gs + OURS, content));
  }

  /** With one server in the text, retiring it is cutting it. */
  lemma {:induction false} RetireIsCut(t: string)
    requires OwnsServer(t) && Count(TJ_SERVER, t) <= 1
    ensures RetireServer(t) == Tidied(Collapse(Cut(TJ_SERVER, t)))
  {
    hide Header, Occurs, Count, Cut, IsOurs;
    ServerHeaders();
    AllOneLine();
    var i := Find(TJ_SERVER, t).value;
    var u := t[i + |TJ_SERVER|..];
    var r := SectionEnd(u);
    FenceHere(TJ_SERVER, t, i);
    SectionEndShape(u);
    var j := |t| - |r|;
    assert r == t[j..];
    OneOccurrence(TJ_SERVER, t, i, j);
    assert t == t[..i] + t[i..];
    CutCopies(TJ_SERVER, t[..i], t[i..]);
    assert t[i..][|TJ_SERVER|..] == u;
    CutHead(TJ_SERVER, t[i..]);
    CutNothing(TJ_SERVER, r);
  }

  lemma {:induction false} BlockLines(block: string)
    requires TomlBlock(block)
    ensures Opens(Lines(block)[0])
    ensures forall i :: 0 <= i < |Lines(block)| ==> !Occurs(TJ_SERVER, Lines(block)[i])
    ensures Neat({TJ_SERVER}, block)
  {
    hide Occurs, Header, TomlBlock;
    BlockFacts(block);
    FirstLine("[", block);
    ServerHeaders();
    AllOneLine();
    forall i | 0 <= i < |Lines(block)|
      ensures !Occurs(TJ_SERVER, Lines(block)[i]) && HeadOnly(TJ_SERVER, Lines(block)[i])
    {
      if Occurs(TJ_SERVER, Lines(block)[i]) {
        LineInText(TJ_SERVER, block, i);
      }
      if Lines(block)[i] != "" && Occurs(TJ_SERVER, Lines(block)[i][1..]) {
        OccursSuffix(TJ_SERVER, Lines(block)[i], 1);
      }
    }
  }

  lemma {:induction false} LineInText(g: string, t: string, i: nat)
    requires OneLine(g) && g != "" && i < |Lines(t)| && Occurs(g, Lines(t)[i])
    ensures Occurs(g, t)
    decreases |t|
  {
    if t != "" {
      var u, v := Lines(t), Lines(t[1..]);
      FirstLine(g, t);
      if t[0] == '\n' {
        if i > 0 {
          LineInText(g, t[1..], i - 1);
        }
      } else if i > 0 {
        LineInText(g, t[1..], i);
      } else if !(g <= u[0]) {
        assert u[0][1..] == v[0];
        LineInText(g, t[1..], 0);
      }
    }
  }

  lemma {:induction false} BehindBlankLine(w: string, block: string)
    ensures Lines(w + "\n\n" + block) == Lines(w) + [""] + Lines(block)
  {
    hide Lines;
    var t := "" + "\n" + block;
    assert w + "\n\n" + block == w + "\n" + t;
    LinesJoin("", block);
    LinesJoin(w, t);
    NoLines();
  }

  lemma {:induction false} NoLines()
    ensures Lines("") == [""]
  {}

  /** Appending the block adds its lines, and nothing else. */
  lemma {:induction false} CanonKeeps(w: string, block: string, gs: set<string>)
    requires TomlBlock(block) && Neat({TJ_SERVER}, w) && gs <= {TJ_SERVER}
    ensures KeptLines(gs, Canon(block, w)) == KeptLines(gs, w) + KeptLines({}, block)
    ensures Neat({TJ_SERVER}, Canon(block, w))
  {
    hide Occurs, Header, Trim, TomlBlock, Lines, Kept, Flush;
    BlockLines(block);
    var b := Lines(block);
    NoneManaged(gs, b, false);
    if w == "" {
      NoLines();
      EmptyLast({TJ_SERVER}, [], gs);
      assert [] + [""] == [""];
      NothingKept(gs);
    } else {
      var a := Lines(w) + [""];
      BehindBlankLine(w, block);
      KeptJoin(gs, a, b, false);
      EmptyLast({TJ_SERVER}, Lines(w), gs);
      OpensAnyState(gs, b, State(gs, a, false));
      FlushFront(a, b);
    }
  }

  lemma {:induction false} NothingKept(gs: set<string>)
    ensures Kept(gs, [], false) == []
  {}

  lemma {:induction false} NoneManaged(gs: set<string>, lines: seq<string>, inside: bool)
    requires gs <= {TJ_SERVER} && forall i :: 0 <= i < |lines| ==> !Occurs(TJ_SERVER, lines[i])
    ensures Kept(gs, lines, inside) == Kept({}, lines, inside)
  {
    hide Trim;
    if lines != [] {
      assert !Managed(gs, lines[0]);
      NoneManaged(gs, lines[1..], inside);
      NoneManaged(gs, lines[1..], false);
    }
  }

  lemma {:induction false} OpensAnyState(gs: set<string>, lines: seq<string>, inside: bool)
    requires lines != [] && Opens(lines[0])
    ensures Kept(gs, lines, inside) == Kept(gs, lines, false)
  {}

  lemma {:induction false} FlushFront(a: seq<string>, b: seq<string>)
    requires Flush(a) && Flush(b)
    ensures Flush(a + b)
  {
    if a == [] {
      assert a + b == b;
    } else {
      assert (a + b)[1..] == a[1..] + b;
      if Blank(a[0]) {
        FlushFront(a[1..], b);
      }
    }
  }

  /** The tables this rewrite of the file takes out. */
  function TakenOut(block: string, content: string): set<string> {
    if OwnsServer(Canon(block, StripOtelTables(Purge(content)))) then EVERY else OURS
  }

  /** The last line of the block has no white space at its end to lose. */
  lemma {:induction false} BlockEnds(block: string)
    requires TomlBlock(block)
    ensures var b := KeptLines({}, block);
            b != [] && TrimRight(b[|b| - 1]) == b[|b| - 1]
  {
    hide Tables, Occurs, KeptLines, TrimRight, IsSpace;
    var b1, b2, b3 :| IsBlock(block, b1, b2, b3);
    LastTwo(block);
    SolidLastLine(block[..|block| - 2], block[|block| - 2]);
  }

  lemma {:induction false} LastTwo(t: string)
    requires |t| > 1 && t[|t| - 1] == '\n'
    ensures t == t[..|t| - 2] + [t[|t| - 2]] + ['\n']
  {}

  lemma {:induction false} SolidLastLine(s: string, c: char)
    requires !IsSpace(c)
    ensures var b := KeptLines({}, s + [c] + ['\n']);
            b != [] && TrimRight(b[|b| - 1]) == b[|b| - 1]
  {
    hide Kept, Lines, TrimRight, IsSpace, HeadsOnly, Flush;
    NewlineIsSpace();
    LastCharacter(s + [c], '\n');
    LastCharacter(s, c);
    var ls := Lines(s);
    var front, l := ls[..|ls| - 1], ls[|ls| - 1] + [c];
    EmptyLast({}, Lines(s + [c]), {});
    KeptJoin({}, front, [l], false);
    NeverInside(front);
    LastIsKept(l, false);
    SolidEnd(l);
  }

  lemma {:induction false} NewlineIsSpace()
    ensures IsSpace('\n')
  {}

  lemma {:induction false} LastIsKept(l: string, inside: bool)
    requires l != "" && !IsSpace(l[|l| - 1]) && !inside
    ensures Kept({}, [l], inside) == [l]
  {
    assert [l][1..] == [];
    assert !Blank(l);
  }

  lemma {:induction false} NeverInside(lines: seq<string>)
    ensures !State({}, lines, false)
  {
    if lines != [] {
      NeverInside(lines[1..]);
    }
  }

  lemma {:induction false} SolidEnd(l: string)
    requires l != "" && !IsSpace(l[|l| - 1])
    ensures TrimRight(l) == l
  {}

  lemma {:induction false} NothingToLose(a: seq<string>, k: seq<string>, b: seq<string>)
    requires UpToTheEnd(a, k + b) && b != [] && TrimRight(b[|b| - 1]) == b[|b| - 1]
    ensures a == k + b
  {
    var n := |a| - 1;
    TrimRightShape(a[n]);
    assert (k + b)[n] == b[|b| - 1];
    assert a == a[..n] + [a[n]] && k + b == (k + b)[..n] + [b[|b| - 1]];
  }

  /**
   Every line outside the tables that are taken out survives a forced rewrite as it is, in order,
   followed by the lines of the block, and nothing else does: up to blank lines, and white space at
   the end of the last one, for every file whose managed headers stand only at the start of a line.
   */
  lemma {:induction false} ForeignTablesSurvive(block: string, parsed: bool, content: string)
    requires TomlBlock(block) && Neat(EVERY, content) && Count(TJ_SERVER, content) <= 1
    ensures var r, k := KeptLines({}, Rewrite(block, parsed, content)), KeptLines(TakenOut(block, content), content);
            |r| >= |k| && UpToTheEnd(r[..|k|], k) && r[|k|..] == KeptLines({}, block)
  {
    hide Occurs, Header, Neat, KeptLines, TomlBlock, Canon, Purge, StripOtelTables, ApplyBlock, Count, Cut,
         Collapse, Tidied, OwnsServer, RetireServer;
    var w := StripOtelTables(Purge(content));
    var t := Canon(block, w);
    var gs: set<string> := if OwnsServer(t) then {TJ_SERVER} else {};
    var left, b := KeptLines(gs, w), KeptLines({}, block);
    OursAreHeaders();
    StripKeeps(content, gs);
    FewerHeaders({TJ_SERVER}, EVERY, w);
    CanonKeeps(w, block, gs);
    ParseDoesNotMatter(block, parsed, content);
    assert gs + OURS == TakenOut(block, content);
    if OwnsServer(t) {
      OneServerLeft(block, content);
      RetireIsCut(t);
      CutKeeps({TJ_SERVER}, TJ_SERVER, t);
      assert {} + {TJ_SERVER} == gs;
      TidyKeeps({TJ_SERVER}, Cut(TJ_SERVER, t), {});
      BlockEnds(block);
      NothingToLose(KeptLines({}, Rewrite(block, parsed, content)), left, b);
    } else {
      RetiresNothing(t);
    }
    assert (left + b)[..|left|] == left && (left + b)[|left|..] == b;
  }

  lemma {:induction false} RetiresNothing(t: string)
    requires !OwnsServer(t)
    ensures RetireServer(t) == t
  {}

  lemma {:induction false} FewerHeaders(some: set<string>, hs: set<string>, t: string)
    requires some <= hs && Neat(hs, t)
    ensures Neat(some, t)
  {}

  lemma {:induction false} OneServerLeft(block: string, content: string)
    requires TomlBlock(block) && Count(TJ_SERVER, content) <= 1
    ensures Count(TJ_SERVER, Canon(block, StripOtelTables(Purge(content)))) <= 1
  {
    hide Occurs, Header, TomlBlock, Purge, StripOtelTables, Count;
    var w := StripOtelTables(Purge(content));
    ServerHeaders();
    BlockFacts(block);
    SpacedFacts(w, block);
    CountKept(TJ_SERVER, content);
    FenceBlock(block);
    CountFence(TJ_SERVER, Spaced(w), block);
    CountZero(TJ_SERVER, block);
  }

  lemma {:induction false} FenceBlock(block: string)
    requires block != "" && block[0] == '['
    ensures Fence(block)
  {}
}

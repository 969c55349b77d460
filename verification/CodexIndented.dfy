/**
 A file that the rewrite of ~/.codex/config.toml (tokenjam/cli/cmd_onboard.py) takes more from than
 the managed tables.
 */
module CodexIndented {
  import opened TextScan
  import opened Codex
  import opened CodexScans
  import opened CodexRewrite
  import opened CodexConverges
  import opened CodexLines

  /** A line that opens a table in TOML, which lets it be indented. */
  predicate Heading(line: string) { Opens(TrimLeft(line)) }

  /** The non-blank lines outside the managed tables as TOML divides the text, multi-line values aside. */
  function TomlKept(hs: set<string>, lines: seq<string>, inside: bool): seq<string> {
    if lines == [] then []
    else if Heading(lines[0]) then
      if Managed(hs, TrimLeft(lines[0])) then TomlKept(hs, lines[1..], true)
      else [lines[0]] + TomlKept(hs, lines[1..], false)
    else if inside || Blank(lines[0]) then TomlKept(hs, lines[1..], inside)
    else [lines[0]] + TomlKept(hs, lines[1..], inside)
  }

  /** An indented header stands between a managed header and the next line that starts with a bracket. */
  predicate Hidden(hs: set<string>, lines: seq<string>, inside: bool) {
    lines != []
    && if Opens(lines[0]) then Hidden(hs, lines[1..], Managed(hs, lines[0]))
       else (inside && Heading(lines[0])) || Hidden(hs, lines[1..], inside)
  }

  /** No managed header is indented where headers stand at the start of a line only. */
  lemma {:induction false} IndentedIsForeign(hs: set<string>, line: string)
    requires forall h :: h in hs ==> Header(h) && HeadOnly(h, line)
    ensures Opens(line) ==> TrimLeft(line) == line
    ensures !Opens(line) && Heading(line) ==> !Managed(hs, TrimLeft(line)) && !Blank(line)
  {
    hide Occurs, Header;
    if line != "" && IsSpace(line[0]) {
      var t := TrimLeft(line);
      TrimLeftShape(line);
      TrimLeftShape(line[1..]);
      assert t == TrimLeft(line[1..]) == line[1..][|line| - 1 - |t|..];
      if Heading(line) && Managed(hs, t) {
        var h :| h in hs && h <= t;
        AtStart(h, t);
        OccursSuffix(h, line[1..], |line| - 1 - |t|);
      }
      if Blank(line) {
        BlankTrimsAway(line);
      }
    } else if line != "" && line[0] == '[' {
      assert !IsSpace('[');
    }
  }

  lemma {:induction false} AtStart(h: string, t: string)
    requires h <= t
    ensures Occurs(h, t)
  {}

  lemma {:induction false} FewerKept(hs: set<string>, lines: seq<string>)
    requires HeadsOnly(hs, lines) && forall h :: h in hs ==> Header(h)
    ensures |Kept(hs, lines, true)| <= |TomlKept(hs, lines, true)| <= |TomlKept(hs, lines, false)|
    ensures |Kept(hs, lines, false)| <= |TomlKept(hs, lines, false)|
  {
    hide Managed, HeadOnly, Header, TrimLeft;
    if lines != [] {
      PartHeadsOnly(hs, lines[1..], lines);
      FewerKept(hs, lines[1..]);
      assert lines[0] in lines;
      IndentedIsForeign(hs, lines[0]);
    }
  }

  /** The cut divides the text as TOML does exactly when no indented header is hidden in a managed table. */
  lemma {:induction false} KeptAsToml(hs: set<string>, lines: seq<string>, inside: bool)
    requires HeadsOnly(hs, lines) && forall h :: h in hs ==> Header(h)
    ensures Kept(hs, lines, inside) == TomlKept(hs, lines, inside) <==> !Hidden(hs, lines, inside)
    ensures Hidden(hs, lines, inside) ==> |Kept(hs, lines, inside)| < |TomlKept(hs, lines, inside)|
  {
    hide Managed, HeadOnly, Header, TrimLeft;
    if lines != [] {
      var rest := lines[1..];
      PartHeadsOnly(hs, rest, lines);
      assert lines[0] in lines;
      IndentedIsForeign(hs, lines[0]);
      FewerKept(hs, rest);
      KeptAsToml(hs, rest, true);
      KeptAsToml(hs, rest, false);
    }
  }

  /**
   The lines of the user's tables, as TOML divides the text, all survive a forced rewrite exactly when
   no indented header stands inside a table that is taken out, before the next line that starts with a
   bracket.
   */
  lemma {:induction false} UserTablesSurvive(block: string, parsed: bool, content: string)
    requires TomlBlock(block) && Neat(EVERY, content) && Count(TJ_SERVER, content) <= 1
    ensures var r := KeptLines({}, Rewrite(block, parsed, content));
            var k := TomlKept(TakenOut(block, content), Lines(content), false);
            |r| >= |k| && UpToTheEnd(r[..|k|], k) && r[|k|..] == KeptLines({}, block)
            <==> !Hidden(TakenOut(block, content), Lines(content), false)
  {
    hide Occurs, Header, TomlBlock, Rewrite, EVERY, UpToTheEnd, Kept, Count, TakenOut, HeadsOnly, Lines, Flush;
    var hs := TakenOut(block, content);
    TakenOutOfEvery(block, content);
    ForeignTablesSurvive(block, parsed, content);
    FewerHeadsOnly(hs, EVERY, Lines(content));
    KeptAsToml(hs, Lines(content), false);
  }

  lemma {:induction false} TakenOutOfEvery(block: string, content: string)
    ensures TakenOut(block, content) <= EVERY
  {}

  lemma {:induction false} FewerHeadsOnly(some: set<string>, hs: set<string>, lines: seq<string>)
    requires some <= hs && HeadsOnly(hs, lines)
    ensures HeadsOnly(some, lines)
  {}

  /** TOML lets a header be indented.  The user's table here is no managed one. */
  function IndentedTable(): seq<string> { [OTEL, "x = 1", "  [profiles.a]", "y = 2"] }

  /** A cut runs past such a header: the rewrite takes the user's table along with the one above it. */
  lemma {:induction false} IndentedTableGoes(block: string, parsed: bool)
    requires TomlBlock(block)
    ensures KeptLines({}, Rewrite(block, parsed, Unlines(IndentedTable()))) == KeptLines({}, block)
  {
    hide Occurs, Header, TomlBlock, Rewrite, OURS, EVERY, UpToTheEnd, Kept, Count, TakenOut;
    var lines := IndentedTable();
    var content := Unlines(lines);
    LinesOfUnlines(lines);
    IndentedIsNeat();
    IndentedHasNoServer();
    ForeignTablesSurvive(block, parsed, content);
    IndentedIsManaged(TakenOut(block, content)) by { OtelTakenOut(block, content); }
    EndOfNothing(KeptLines({}, Rewrite(block, parsed, content)), KeptLines({}, block));
  }

  lemma {:induction false} EndOfNothing(r: seq<string>, b: seq<string>)
    requires r[0..] == b
    ensures r == b
  {}

  lemma {:induction false} OtelTakenOut(block: string, content: string)
    ensures OTEL in TakenOut(block, content)
  {}

  lemma {:induction false} IndentedIsManaged(hs: set<string>)
    requires OTEL in hs
    ensures Kept(hs, IndentedTable() + [""], false) == []
  {
    hide Managed;
    var rest := ["x = 1", "  [profiles.a]", "y = 2", ""];
    assert Managed(hs, OTEL) by { ManagedHead(hs, OTEL); }
    assert IndentedTable() + [""] == [OTEL] + rest;
    assert ([OTEL] + rest)[1..] == rest;
    InsideNothingOpens(hs, rest);
  }

  lemma {:induction false} ManagedHead(hs: set<string>, h: string)
    requires h in hs
    ensures Managed(hs, h)
  {}

  lemma {:induction false} InsideNothingOpens(hs: set<string>, lines: seq<string>)
    requires forall i :: 0 <= i < |lines| ==> !Opens(lines[i])
    ensures Kept(hs, lines, true) == []
  {
    if lines != [] {
      InsideNothingOpens(hs, lines[1..]);
    }
  }

  lemma {:induction false} LinesOfUnlines(lines: seq<string>)
    requires forall i :: 0 <= i < |lines| ==> OneLine(lines[i])
    ensures Lines(Unlines(lines)) == lines + [""]
  {
    if lines != [] {
      LinesOfUnlines(lines[1..]);
      var rest := Unlines(lines[1..]);
      LinesWord(lines[0], "\n" + rest);
      assert Unlines(lines) == lines[0] + ("\n" + rest);
      assert ("\n" + rest)[1..] == rest;
      assert lines[0] + "" == lines[0];
    }
  }

  /** A header is found only where its bracket is. */
  lemma {:induction false} FoundAtBracket(h: string, t: string, k: nat)
    requires h != "" && k < |t| && forall j :: 0 <= j < |t| && j != k ==> t[j] != h[0]
    ensures Occurs(h, t) <==> h <= t[k..]
  {
    if k > 0 {
      assert t[0] != h[0];
      assert t[1..][k - 1..] == t[k..];
      FoundAtBracket(h, t[1..], k - 1);
    } else {
      OccursNeedsHead(h, t[1..]);
    }
  }

  lemma {:induction false} NoHeaderInIndented(h: string)
    requires Header(h) && h[1] != 'p'
    ensures !Occurs(h, "  [profiles.a]" + "\n") && HeadOnly(h, "  [profiles.a]")
  {
    var t, u := "  [profiles.a]", " [profiles.a]";
    OneBracket();
    assert t[1..] == u;
    FoundAtBracket(h, t + "\n", 2);
    FoundAtBracket(h, u, 1);
  }

  lemma {:induction false} OneBracket()
    ensures forall j :: 0 <= j < 15 && j != 2 ==> ("  [profiles.a]" + "\n")[j] != '['
    ensures forall j :: 0 <= j < 13 && j != 1 ==> " [profiles.a]"[j] != '['
  {}

  lemma {:induction false} IndentedIsNeat()
    ensures Neat(EVERY, Unlines(IndentedTable()))
  {
    hide Header, EVERY, HeadOnly, Flush;
    var lines := IndentedTable() + [""];
    LinesOfUnlines(IndentedTable());
    OursAreHeaders();
    assert lines == [OTEL, "x = 1", "  [profiles.a]", "y = 2", ""];
    forall h, line | h in EVERY && line in lines ensures HeadOnly(h, line) {
      IndentedHead(h, line);
    }
    assert Flush(lines) by { BracketIsFlush(lines); }
  }

  lemma {:induction false} BracketIsFlush(lines: seq<string>)
    requires lines != [] && Opens(lines[0])
    ensures Flush(lines)
  {
    assert !IsSpace(lines[0][0]);
  }

  lemma {:induction false} IndentedHead(h: string, line: string)
    requires h in EVERY && Header(h)
    requires line == "" || line == OTEL || line == "x = 1" || line == "  [profiles.a]" || line == "y = 2"
    ensures HeadOnly(h, line)
  {
    hide Occurs, EVERY, Header;
    SecondCharacter(h);
    if line == "  [profiles.a]" {
      NoHeaderInIndented(h);
    } else if line != "" {
      NoBracketInside(line);
      OccursNeedsHead(h, line[1..]);
    }
  }

  /** No managed header starts like the user's. */
  lemma {:induction false} SecondCharacter(h: string)
    requires h in EVERY
    ensures |h| > 1 && h[0] == '[' && h[1] != 'p'
  {
    assert TJ_SERVER[1] == 'm' && OCW_SERVER[1] == 'm' && OTEL[1] == 'o' && OTEL_RESOURCE[1] == 'o';
    assert OTLP_HTTP[1] == 'o' && OTLP_HTTP_HEADERS[1] == 'o' && OTLP_GRPC[1] == 'o' && OTLP_GRPC_HEADERS[1] == 'o';
  }

  lemma {:induction false} NoBracketInside(line: string)
    requires line == OTEL || line == "x = 1" || line == "y = 2"
    ensures line != "" && '[' !in line[1..]
  {}

  lemma {:induction false} IndentedHasNoServer()
    ensures Count(TJ_SERVER, Unlines(IndentedTable())) == 0
  {
    hide Occurs, Header, Count;
    var h := TJ_SERVER;
    ServerHeaders();
    var lines := IndentedTable();
    assert lines[1..] == ["x = 1", "  [profiles.a]", "y = 2"] && lines[1..][1..] == ["  [profiles.a]", "y = 2"];
    assert lines[1..][1..][1..] == ["y = 2"] && ["y = 2"][1..] == [];
    CountZero(h, Unlines(lines));
    assert OTEL[1] != h[1] && h[1] != 'p';
    FoundAtBracket(h, OTEL + "\n", 0) by { NoBracketInside(OTEL); }
    OccursNeedsHead(h, "x = 1" + "\n");
    NoHeaderInIndented(h);
    OccursNeedsHead(h, "y = 2" + "\n");
    OccursNeedsHead(h, "");
    assert Anchor(h);
    OccursSplit(h, OTEL + "\n", Unlines(lines[1..]));
    OccursSplit(h, "x = 1" + "\n", Unlines(lines[1..][1..]));
    OccursSplit(h, "  [profiles.a]" + "\n", Unlines(["y = 2"]));
    OccursSplit(h, "y = 2" + "\n", "");
  }
}

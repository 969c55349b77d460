/**
 The rc file whose last line has no newline.  A managed block may close at the end of the file
 instead of at a newline.
 */
module RcLastLine {
  import opened Prelude
  import opened TextScan
  import opened ShellRc
  import opened RcPipeline
  import opened RcLines

  /** The last piece without its final newline. */
  function OpenText(p: Piece): (r: string)
    ensures r + "\n" == Text(p)
  {
    assert Text(p)[|Text(p)| - 1] == '\n' by { EndsInNewline(p); }
    Text(p)[..|Text(p)| - 1]
  }

  lemma {:induction false} EndsInNewline(p: Piece)
    ensures Text(p) != "" && Text(p)[|Text(p)| - 1] == '\n'
  {
    if p.LegacyBlock? {
      UnlinesComplete(p.exports);
    }
  }

  /** What stripping leaves of it: a legacy marker that the file ends in is no marker line. */
  function OpenRest(p: Piece, eating: bool): string {
    match p
    case Line(x) => if eating && IsExport(x) then "" else x
    case SentinelBlock(_) => ""
    case LegacyBlock(m, exports) => if exports == [] then m else ""
  }

  /** The same for the sentinel pass alone. */
  function AfterSentinels(p: Piece): string {
    if p.SentinelBlock? then "" else OpenText(p)
  }

  lemma {:induction false} EndAtEnd()
    ensures FindEnd(OTEL_END, NewlineOrEnd, OTEL_END) == Some(|OTEL_END|)
  {}

  /** A sentinel block closes at the end of the file. */
  lemma {:induction false} OpenBlockGoes(s: string, e: string, body: string)
    requires Anchor(s) && e != [] && OneLine(e) && IsBody(e, body)
    requires FindEnd(e, NewlineOrEnd, e) == Some(|e|)
    ensures ReplaceBlocks(s, e, NewlineOrEnd, "", s + body + e) == ""
  {
    hide Occurs, FindEnd, EndHere, ReplaceBlocks;
    var t := s + body + e;
    FindEndNone(e, body);
    FindEndSplit(e, NewlineOrEnd, body, e);
    assert t[|s|..] == body + e;
    StepBlock(s, e, NewlineOrEnd, "", t, |t|);
    OccursNeedsHead(s, "");
    CopyAll(s, e, NewlineOrEnd, "", "");
    assert t[|t|..] == "" && "" + "" == "";
  }

  lemma {:induction false} OpenSentinel(p: Piece)
    requires WellFormed(p)
    ensures StripSentinels(OpenText(p)) == AfterSentinels(p)
  {
    hide ReplaceBlocks, Occurs, FindEnd, EndHere;
    var s, t := OTEL_START + "\n", OpenText(p);
    MarkersAreAnchors();
    MarkerShapes();
    if p.SentinelBlock? {
      LinesHaveNoMarker(OTEL_END, p.body);
      HashLineAnchors(OTEL_END);
      EndAtEnd();
      OpenBlockGoes(s, OTEL_END, Unlines(p.body));
    } else {
      MarkersDistinct();
      MarkerInPiece(OTEL_START, p);
      FreeOfPrefix(s, Text(p), |t|);
      assert Text(p)[..|t|] == t;
      CopyAll(s, OTEL_END, NewlineOrEnd, "", t);
    }
  }

  /** The line at the end of the file is as good an export line as any other. */
  lemma {:induction false} SkipLast(x: string)
    requires OneLine(x)
    ensures SkipExports(x) == if IsExport(x) then "" else x
  {
    if IsExport(x) {
      assert x[7] in x;
      assert OneLine(x[8..]) by { assert forall c :: c in x[8..] ==> c in x; }
      AfterLastLine(x[8..]);
    }
  }

  lemma {:induction false} AfterLastLine(x: string)
    requires OneLine(x)
    ensures AfterLine(x) == ""
  {
    if x != "" {
      assert forall c :: c in x[1..] ==> c in x;
      AfterLastLine(x[1..]);
    }
  }

  lemma {:induction false} OpenLine(m: string, p: Piece, eating: bool)
    requires m in {LEGACY_TJ, LEGACY_OCW} && WellFormed(p) && p.Line?
    ensures TailOf(m, p.text, eating) == OpenRest(p, eating)
  {
    hide StripLegacy, SkipExports, Occurs;
    MarkerInPiece(m, p);
    FreeOfPrefix(m + "\n", Text(p), |p.text|);
    assert Text(p)[..|p.text|] == p.text;
    LegacyCopies(m, p.text);
    SkipLast(p.text);
    EmptyText(m);
  }

  /** A legacy block at the end of the file, its own pass. */
  lemma {:induction false} OpenOwnBlock(p: Piece, eating: bool)
    requires WellFormed(p) && p.LegacyBlock?
    ensures TailOf(p.marker, OpenText(p), eating) == OpenRest(p, eating)
  {
    hide StripLegacy, SkipExports, Occurs;
    var m, n := p.marker, |p.exports|;
    MarkerShapes();
    NotExport(p);
    if n == 0 {
      assert OpenText(p) == m;
      TooShort(m + "\n", m);
      LegacyCopies(m, m);
    } else {
      var first, last := p.exports[..n - 1], p.exports[n - 1];
      assert p.exports == first + [last];
      UnlinesAppend(first, last);
      assert OpenText(p) == m + "\n" + (Unlines(first) + last);
      LegacyMarkerLine(m, Unlines(first) + last);
      SkipOwnExports(first, last);
      SkipLast(last);
      EmptyText(m);
    }
  }

  lemma {:induction false} NotExport(p: Piece)
    requires WellFormed(p) && p.LegacyBlock?
    ensures SkipExports(OpenText(p)) == OpenText(p)
  {
    MarkerShapes();
    assert OpenText(p)[0] == '#' by { assert Text(p)[0] == '#' && |OpenText(p)| > 0; }
    assert "export "[0] == 'e';
  }

  lemma {:induction false} OpenForeignBlock(m: string, p: Piece, eating: bool)
    requires m in {LEGACY_TJ, LEGACY_OCW} && WellFormed(p) && p.LegacyBlock? && p.marker != m
    ensures TailOf(m, OpenText(p), eating) == OpenText(p)
  {
    hide StripLegacy, SkipExports, Occurs;
    MarkerInPiece(m, p);
    FreeOfPrefix(m + "\n", Text(p), |OpenText(p)|);
    assert Text(p)[..|OpenText(p)|] == OpenText(p);
    LegacyCopies(m, OpenText(p));
    NotExport(p);
  }

  /** A bare marker is left alone by both passes. */
  lemma {:induction false} OpenMarker(m: string, own: string, eating: bool)
    requires m in {LEGACY_TJ, LEGACY_OCW} && own in {LEGACY_TJ, LEGACY_OCW}
    ensures TailOf(m, own, eating) == own
  {
    hide TailOf;
    var p := LegacyBlock(own, []);
    assert OpenText(p) == own by { assert own + "\n" + "" == own + "\n"; }
    if m == own { OpenOwnBlock(p, eating); } else { OpenForeignBlock(m, p, eating); }
  }

  lemma {:induction false} OpenPiece(p: Piece, first: bool, second: bool)
    requires WellFormed(p)
    ensures TailOf(LEGACY_OCW, TailOf(LEGACY_TJ, AfterSentinels(p), first), second) == OpenRest(p, first || second)
  {
    hide TailOf;
    NothingAfter();
    MarkersDistinct();
    match p
    case SentinelBlock(_) =>
    case Line(x) =>
      OpenLine(LEGACY_TJ, p, first);
      OpenLine(LEGACY_OCW, p, second);
    case LegacyBlock(own, exports) =>
      if own == LEGACY_TJ {
        OpenOwnBlock(p, first);
        OpenMarker(LEGACY_OCW, own, second);
      } else {
        OpenForeignBlock(LEGACY_TJ, p, first);
        OpenOwnBlock(p, second);
      }
  }

  /** Stripping a file whose last line has no newline, exactly. */
  lemma {:induction false} StripOpen(ps: seq<Piece>, p: Piece)
    requires AllWellFormed(ps) && WellFormed(p)
    ensures StripOtel(Render(ps) + OpenText(p)) == Unlines(Survivors(ps, false)) + OpenRest(p, Eating(ps, false))
  {
    hide StripOtel, StripSentinels, TailOf, Survivors, Eating, OpenText, OpenRest, AfterSentinels;
    StripPieces(ps, OpenText(p));
    OpenSentinel(p);
    var first, second :|
      && (first || second <==> Eating(ps, false))
      && StripOtel(Render(ps) + OpenText(p))
         == Unlines(Survivors(ps, false))
            + TailOf(LEGACY_OCW, TailOf(LEGACY_TJ, StripSentinels(OpenText(p)), first), second);
    OpenPiece(p, first, second);
  }

  /**
   The user's lines of such a file survive exactly when there is nothing to swallow and it does not end in a
   bare legacy marker.
   */
  lemma {:induction false} ForeignLinesSurviveOpen(ps: seq<Piece>, p: Piece)
    requires AllWellFormed(ps) && WellFormed(p)
    ensures StripOtel(Render(ps) + OpenText(p)) == Unlines(Foreign(ps)) + (if p.Line? then p.text else "")
       <==> NothingToSwallow(ps, false)
            && (match p
                case Line(x) => !(Eating(ps, false) && IsExport(x))
                case SentinelBlock(_) => true
                case LegacyBlock(_, exports) => exports != [])
  {
    hide StripOtel, Occurs;
    var rest, own := OpenRest(p, Eating(ps, false)), if p.Line? then p.text else "";
    StripOpen(ps, p);
    SurvivorsShort(ps, false);
    LinesAreWellFormed(ps, false);
    MarkerShapes();
    RestIsWhole(p, Eating(ps, false));
    hide OneLine, Unlines, Survivors, Foreign, NothingToSwallow, Eating, OpenRest;
    SameLines(Survivors(ps, false), rest, Foreign(ps), own);
  }

  lemma {:induction false} RestIsWhole(p: Piece, eating: bool)
    requires WellFormed(p)
    ensures var own := if p.Line? then p.text else "";
            && OneLine(OpenRest(p, eating)) && OneLine(own)
            && (OpenRest(p, eating) == own <==>
                  match p
                  case Line(x) => !(eating && IsExport(x))
                  case SentinelBlock(_) => true
                  case LegacyBlock(_, exports) => exports != [])
  {
    match p
    case Line(x) =>
    case SentinelBlock(_) =>
    case LegacyBlock(_, _) => BareMarkerText();
  }

  lemma {:induction false} BareMarkerText()
    ensures LEGACY_TJ != "" && OneLine(LEGACY_TJ) && LEGACY_OCW != "" && OneLine(LEGACY_OCW)
  {}

  /** A text divides into lines in one way only, as far as their number goes. */
  lemma {:induction false} SameLines(xs: seq<string>, x: string, ys: seq<string>, y: string)
    requires forall i :: 0 <= i < |xs| ==> OneLine(xs[i])
    requires forall i :: 0 <= i < |ys| ==> OneLine(ys[i])
    requires OneLine(x) && OneLine(y)
    ensures Unlines(xs) + x == Unlines(ys) + y ==> |xs| == |ys|
    ensures |xs| == |ys| && xs == ys ==> (Unlines(xs) + x == Unlines(ys) + y <==> x == y)
  {
    NewlineCount(xs);
    NewlineCount(ys);
    CountTail(xs, x);
    CountTail(ys, y);
    if xs == ys {
      assert (Unlines(xs) + x)[|Unlines(xs)|..] == x;
      assert (Unlines(ys) + y)[|Unlines(ys)|..] == y;
    }
  }

  lemma {:induction false} CountTail(lines: seq<string>, x: string)
    requires OneLine(x)
    ensures Count("\n", Unlines(lines) + x) == Count("\n", Unlines(lines))
  {
    hide Unlines;
    UnlinesComplete(lines);
    CountSplit("\n", Unlines(lines), x);
    OccursNeedsHead("\n", x);
    CountZero("\n", x);
  }

  /** Such a file leaves no marker line behind exactly when it does not end in a bare legacy marker. */
  lemma {:induction false} OpenFilesAreRepaired(ps: seq<Piece>, p: Piece)
    requires AllWellFormed(ps) && WellFormed(p)
    ensures NoLeftover(Render(ps) + OpenText(p)) <==> !(p.LegacyBlock? && p.exports == [])
  {
    hide StripOtel, Survivors, Eating, NoLeftover, Occurs, OpenText;
    var t := Render(ps) + OpenText(p);
    var lines, rest := Survivors(ps, false), OpenRest(p, Eating(ps, false));
    StripOpen(ps, p);
    LinesAreWellFormed(ps, false);
    MarkerShapes();
    if p.LegacyBlock? && p.exports == [] {
      BareMarkerStays(t, Unlines(lines), p.marker);
    } else {
      UnlinesAppend(lines, rest);
      NoMarkerAtAll();
      KeptOfCleanLines(t, lines + [rest]);
    }
  }

  lemma {:induction false} BareMarkerStays(t: string, u: string, m: string)
    requires m in {LEGACY_TJ, LEGACY_OCW} && StripOtel(t) == u + m
    ensures !NoLeftover(t)
  {
    hide StripOtel, Occurs;
    MarkerShapes();
    KeepsWhole(m);
    NotBlankSum(u, m);
    RStripKeeps(u + m);
    assert (u + m + "\n")[|u|..] == m + "\n";
    OccursSelf(m + "\n");
    OccursSuffix(m + "\n", u + m + "\n", |u|);
  }

  lemma {:induction false} OccursSelf(p: string)
    ensures Occurs(p, p)
  {}
}

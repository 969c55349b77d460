/**
 What stripping does to an rc file seen as lines: the user's own lines, sentinel blocks and
 legacy blocks in any number and order.
 */
module RcLines {
  import opened TextScan
  import opened ShellRc
  import opened RcPipeline

  datatype Piece =
    | Line(text: string)
    | SentinelBlock(body: seq<string>)
    | LegacyBlock(marker: string, exports: seq<string>)

  /** A non-empty `export` line. */
  predicate IsExport(line: string) {
    "export " <= line && |line| > 7
  }

  ghost predicate WellFormed(p: Piece) {
    match p
    case Line(x) => OneLine(x) && !EndsWithMarker(x)
    case SentinelBlock(body) =>
      forall i :: 0 <= i < |body| ==> OneLine(body[i]) && !EndsWith(body[i], OTEL_END)
    case LegacyBlock(m, exports) =>
      && m in {LEGACY_TJ, LEGACY_OCW}
      && forall i :: 0 <= i < |exports| ==>
           OneLine(exports[i]) && IsExport(exports[i]) && !EndsWithMarker(exports[i])
  }

  ghost predicate AllWellFormed(ps: seq<Piece>) {
    forall i :: 0 <= i < |ps| ==> WellFormed(ps[i])
  }

  function Text(p: Piece): string {
    match p
    case Line(x) => x + "\n"
    case SentinelBlock(body) => Block(OTEL_START + "\n", Unlines(body), OTEL_END)
    case LegacyBlock(m, exports) => m + "\n" + Unlines(exports)
  }

  function Render(ps: seq<Piece>): string {
    if ps == [] then "" else Text(ps[0]) + Render(ps[1..])
  }

  /** The user's own lines. */
  function Foreign(ps: seq<Piece>): seq<string> {
    if ps == [] then []
    else (if ps[0].Line? then [ps[0].text] else []) + Foreign(ps[1..])
  }

  /**
   The lines that come through.  `eating` says that a legacy block was met and nothing but managed
   blocks and `export` lines since: in that stretch the user's own `export` lines go too.
   */
  function Survivors(ps: seq<Piece>, eating: bool): seq<string> {
    if ps == [] then []
    else match ps[0]
         case Line(x) =>
           if eating && IsExport(x) then Survivors(ps[1..], true)
           else [x] + Survivors(ps[1..], false)
         case SentinelBlock(_) => Survivors(ps[1..], eating)
         case LegacyBlock(_, _) => Survivors(ps[1..], true)
  }

  /** Whether that stretch reaches to the end. */
  predicate Eating(ps: seq<Piece>, eating: bool) {
    if ps == [] then eating
    else match ps[0]
         case Line(x) => Eating(ps[1..], eating && IsExport(x))
         case SentinelBlock(_) => Eating(ps[1..], eating)
         case LegacyBlock(_, _) => Eating(ps[1..], true)
  }

  /** No `export` line of the user's follows a legacy block with only managed blocks in between. */
  predicate NothingToSwallow(ps: seq<Piece>, eating: bool) {
    ps == [] ||
    match ps[0]
    case Line(x) => !(eating && IsExport(x)) && NothingToSwallow(ps[1..], false)
    case SentinelBlock(_) => NothingToSwallow(ps[1..], eating)
    case LegacyBlock(_, _) => NothingToSwallow(ps[1..], true)
  }

  // ---------------------------------------------------------------------
  // First pass: the sentinel blocks
  // ---------------------------------------------------------------------

  function WithoutSentinels(ps: seq<Piece>): seq<Piece> {
    if ps == [] then []
    else (if ps[0].SentinelBlock? then [] else [ps[0]]) + WithoutSentinels(ps[1..])
  }

  lemma {:induction false} LinesHaveNoMarker(m: string, lines: seq<string>)
    requires HashLine(m)
    requires forall i :: 0 <= i < |lines| ==> OneLine(lines[i]) && !EndsWith(lines[i], m)
    ensures !Occurs(m + "\n", Unlines(lines)) && Complete(Unlines(lines))
  {
    HashLineAnchors(m);
    MarkerInLines(m, lines);
    UnlinesComplete(lines);
  }

  /** A marker line occurs in a line or a legacy block only as the legacy block's own marker. */
  lemma {:induction false} MarkerInPiece(m: string, p: Piece)
    requires m in {OTEL_START, LEGACY_TJ, LEGACY_OCW}
    requires WellFormed(p) && !p.SentinelBlock?
    ensures Complete(Text(p))
    ensures Occurs(m + "\n", Text(p)) <==> p.LegacyBlock? && p.marker == m
  {
    hide Occurs;
    MarkerShapes();
    HashLineAnchors(m);
    match p
    case Line(x) => MarkerEndsLine(m, x);
    case LegacyBlock(own, exports) =>
      LinesHaveNoMarker(m, exports);
      HashInHash(m, own);
      OccursSplit(m + "\n", own + "\n", Unlines(exports));
  }

  lemma {:induction false} MarkersDistinct()
    ensures OTEL_START != LEGACY_TJ && OTEL_START != LEGACY_OCW && LEGACY_TJ != LEGACY_OCW
  {
    assert OTEL_START[2] == '>' && LEGACY_TJ[2] == 't' && LEGACY_OCW[2] == 'o';
  }

  lemma {:induction false} RenderFirst(ps: seq<Piece>, tail: string)
    requires ps != []
    ensures Render(ps) + tail == Text(ps[0]) + (Render(ps[1..]) + tail)
  {}

  lemma {:induction false} RenderCons(p: Piece, rest: seq<Piece>, tail: string)
    ensures Render([p] + rest) + tail == Text(p) + (Render(rest) + tail)
  {
    assert ([p] + rest)[1..] == rest;
  }

  lemma {:induction false} SentinelGoes(body: seq<string>, rest: string)
    requires WellFormed(SentinelBlock(body))
    ensures StripSentinels(Text(SentinelBlock(body)) + rest) == StripSentinels(rest)
  {
    hide ReplaceBlocks, Occurs;
    MarkerShapes();
    MarkersAreAnchors();
    LinesHaveNoMarker(OTEL_END, body);
    ReplaceOne(OTEL_START + "\n", OTEL_END, NewlineOrEnd, "", Unlines(body), rest);
  }

  lemma {:induction false} OtherPieceStays(p: Piece, rest: string)
    requires WellFormed(p) && !p.SentinelBlock?
    ensures StripSentinels(Text(p) + rest) == Text(p) + StripSentinels(rest)
  {
    hide ReplaceBlocks, Occurs, Text;
    MarkersAreAnchors();
    MarkersDistinct();
    MarkerInPiece(OTEL_START, p);
    CopyLines(OTEL_START + "\n", OTEL_END, NewlineOrEnd, "", Text(p), rest);
  }

  /** The pieces lose their sentinel blocks, whatever text comes after them. */
  lemma {:induction false} SentinelPass(ps: seq<Piece>, tail: string)
    requires AllWellFormed(ps)
    ensures StripSentinels(Render(ps) + tail) == Render(WithoutSentinels(ps)) + StripSentinels(tail)
  {
    hide StripSentinels, Text, WellFormed;
    if ps == [] {
      assert Render(ps) + tail == tail && "" + StripSentinels(tail) == StripSentinels(tail);
    } else {
      hide Render;
      RenderFirst(ps, tail);
      SentinelPass(ps[1..], tail);
      if ps[0].SentinelBlock? {
        SentinelGoes(ps[0].body, Render(ps[1..]) + tail);
        assert WithoutSentinels(ps) == WithoutSentinels(ps[1..]);
      } else {
        OtherPieceStays(ps[0], Render(ps[1..]) + tail);
        RenderCons(ps[0], WithoutSentinels(ps[1..]), StripSentinels(tail));
      }
    }
  }

  // ---------------------------------------------------------------------
  // Second and third pass: one legacy marker each
  // ---------------------------------------------------------------------

  /** What is left after the pass for marker `m`. */
  function Pass(m: string, ps: seq<Piece>, eating: bool): seq<Piece> {
    if ps == [] then []
    else if ps[0].LegacyBlock? && ps[0].marker == m then Pass(m, ps[1..], true)
    else if ps[0].Line? && eating && IsExport(ps[0].text) then Pass(m, ps[1..], true)
    else [ps[0]] + Pass(m, ps[1..], false)
  }

  /** Whether the pass is still skipping `export` lines at the end. */
  predicate StillEating(m: string, ps: seq<Piece>, eating: bool) {
    if ps == [] then eating
    else if ps[0].LegacyBlock? && ps[0].marker == m then StillEating(m, ps[1..], true)
    else if ps[0].Line? && eating && IsExport(ps[0].text) then StillEating(m, ps[1..], true)
    else StillEating(m, ps[1..], false)
  }

  /** What the legacy passes ask of a piece. */
  ghost predicate LegacyReady(p: Piece) {
    match p
    case Line(x) => OneLine(x) && !EndsWith(x, LEGACY_TJ) && !EndsWith(x, LEGACY_OCW)
    case SentinelBlock(_) => false
    case LegacyBlock(_, _) => WellFormed(p)
  }

  ghost predicate AllReady(ps: seq<Piece>) {
    forall i :: 0 <= i < |ps| ==> LegacyReady(ps[i])
  }

  lemma {:induction false} LegacyMarkerInPiece(m: string, p: Piece)
    requires m in {LEGACY_TJ, LEGACY_OCW} && LegacyReady(p)
    ensures Complete(Text(p))
    ensures Occurs(m + "\n", Text(p)) <==> p.LegacyBlock? && p.marker == m
  {
    hide Occurs;
    MarkerShapes();
    HashLineAnchors(m);
    match p
    case Line(x) => MarkerEndsLine(m, x);
    case LegacyBlock(_, _) => MarkerInPiece(m, p);
  }

  ghost predicate NoSentinels(ps: seq<Piece>) {
    forall i :: 0 <= i < |ps| ==> !ps[i].SentinelBlock?
  }

  lemma {:induction false} ExportLineHere(x: string, rest: string)
    requires OneLine(x)
    ensures ExportHere(x + "\n" + rest) <==> IsExport(x)
  {
    var t := x + "\n" + rest;
    assert t[|x|] == '\n';
    assert t[..|x|] == x;
    assert "export " <= t <==> "export " <= x by {
      if |x| < 7 {
        assert "export "[|x|] != '\n';
      }
    }
  }

  lemma {:induction false} AfterWholeLine(x: string, rest: string)
    requires OneLine(x)
    ensures AfterLine(x + "\n" + rest) == rest
  {
    var t := x + "\n" + rest;
    if x == "" {
      assert t[1..] == rest;
    } else {
      assert t[1..] == x[1..] + "\n" + rest;
      AfterWholeLine(x[1..], rest);
    }
  }

  lemma {:induction false} SkipOneExport(x: string, rest: string)
    requires OneLine(x) && IsExport(x)
    ensures SkipExports(x + "\n" + rest) == SkipExports(rest)
  {
    ExportLineHere(x, rest);
    var t := x + "\n" + rest;
    assert t[8..] == x[8..] + "\n" + rest;
    AfterWholeLine(x[8..], rest);
  }

  lemma {:induction false} SkipOwnExports(lines: seq<string>, rest: string)
    requires forall i :: 0 <= i < |lines| ==> OneLine(lines[i]) && IsExport(lines[i])
    ensures SkipExports(Unlines(lines) + rest) == SkipExports(rest)
  {
    if lines == [] {
      assert Unlines(lines) + rest == rest;
    } else {
      assert Unlines(lines) + rest == lines[0] + "\n" + (Unlines(lines[1..]) + rest);
      SkipOneExport(lines[0], Unlines(lines[1..]) + rest);
      SkipOwnExports(lines[1..], rest);
    }
  }

  /** A text that does not start with an `export` line is not skipped into. */
  lemma {:induction false} SkipStops(p: Piece, more: string)
    requires LegacyReady(p)
    requires p.LegacyBlock? || !IsExport(p.text)
    ensures SkipExports(Text(p) + more) == Text(p) + more
  {
    var t := Text(p) + more;
    if p.Line? {
      assert t == p.text + "\n" + more;
      ExportLineHere(p.text, more);
    } else {
      assert t[0] == '#' by { MarkerShapes(); }
      assert "export "[0] == 'e';
    }
  }

  lemma {:induction false} LegacyCopiesLines(m: string, a: string, b: string)
    requires Anchor(m + "\n") && Complete(a) && !Occurs(m + "\n", a)
    ensures StripLegacy(m, a + b) == a + StripLegacy(m, b)
  {
    hide SkipExports;
    if a == [] {
      assert a + b == b;
    } else {
      LineBound(m + "\n", a, b);
      assert (a + b)[1..] == a[1..] + b;
      LegacyCopiesLines(m, a[1..], b);
    }
  }

  lemma {:induction false} LegacyMarkerLine(m: string, rest: string)
    ensures StripLegacy(m, m + "\n" + rest) == StripLegacy(m, SkipExports(rest))
  {
    var t := m + "\n" + rest;
    assert m + "\n" <= t && t[|m| + 1..] == rest;
  }

  /** The text after the pieces, once the pass gets there. */
  function TailOf(m: string, tail: string, eating: bool): string {
    StripLegacy(m, if eating then SkipExports(tail) else tail)
  }

  /** A block with this marker goes, and the pass skips on. */
  lemma {:induction false} OwnBlockGoes(m: string, p: Piece, more: string)
    requires m in {LEGACY_TJ, LEGACY_OCW} && LegacyReady(p)
    requires p.LegacyBlock? && p.marker == m
    ensures StripLegacy(m, Text(p) + more) == StripLegacy(m, SkipExports(more))
  {
    hide StripLegacy, SkipExports, Occurs;
    LegacyMarkerLine(m, Unlines(p.exports) + more);
    assert Text(p) + more == m + "\n" + (Unlines(p.exports) + more);
    SkipOwnExports(p.exports, more);
  }

  lemma {:induction false} OtherStays(m: string, p: Piece, more: string)
    requires m in {LEGACY_TJ, LEGACY_OCW} && LegacyReady(p)
    requires !(p.LegacyBlock? && p.marker == m)
    ensures StripLegacy(m, Text(p) + more) == Text(p) + StripLegacy(m, more)
  {
    hide StripLegacy, Occurs, Text;
    MarkersAreAnchors();
    LegacyMarkerInPiece(m, p);
    LegacyCopiesLines(m, Text(p), more);
  }

  lemma {:induction false} SkipInto(p: Piece, more: string)
    requires LegacyReady(p)
    ensures SkipExports(Text(p) + more)
         == if p.Line? && IsExport(p.text) then SkipExports(more) else Text(p) + more
  {
    hide SkipExports;
    if p.Line? && IsExport(p.text) {
      assert Text(p) + more == p.text + "\n" + more;
      SkipOneExport(p.text, more);
    } else {
      SkipStops(p, more);
    }
  }

  lemma {:induction false} LegacyPass(m: string, ps: seq<Piece>, tail: string)
    requires m in {LEGACY_TJ, LEGACY_OCW} && AllReady(ps)
    ensures StripLegacy(m, Render(ps) + tail) == Render(Pass(m, ps, false)) + TailOf(m, tail, StillEating(m, ps, false))
    ensures StripLegacy(m, SkipExports(Render(ps) + tail))
         == Render(Pass(m, ps, true)) + TailOf(m, tail, StillEating(m, ps, true))
    decreases |ps|
  {
    hide StripLegacy, SkipExports, Text, LegacyReady, IsExport;
    if ps == [] {
      assert Render(ps) + tail == tail;
    } else {
      hide Render, TailOf;
      var p, rest, more := ps[0], ps[1..], Render(ps[1..]) + tail;
      LegacyPass(m, rest, tail);
      RenderFirst(ps, tail);
      SkipInto(p, more);
      if p.LegacyBlock? && p.marker == m {
        OwnBlockGoes(m, p, more);
      } else {
        OtherStays(m, p, more);
        RenderCons(p, Pass(m, rest, false), TailOf(m, tail, StillEating(m, rest, false)));
      }
    }
  }

  lemma {:induction false} EmptyText(m: string)
    ensures StripLegacy(m, "") == ""
  {}

  // ---------------------------------------------------------------------
  // The passes together
  // ---------------------------------------------------------------------

  lemma {:induction false} SentinelsDoNotMatter(ps: seq<Piece>, eating: bool)
    requires AllWellFormed(ps)
    ensures AllWellFormed(WithoutSentinels(ps)) && NoSentinels(WithoutSentinels(ps)) && AllReady(WithoutSentinels(ps))
    ensures Survivors(WithoutSentinels(ps), eating) == Survivors(ps, eating)
    ensures Eating(WithoutSentinels(ps), eating) == Eating(ps, eating)
    decreases |ps|
  {
    if ps != [] {
      var rest := WithoutSentinels(ps[1..]);
      SentinelsDoNotMatter(ps[1..], eating);
      SentinelsDoNotMatter(ps[1..], true);
      SentinelsDoNotMatter(ps[1..], false);
      if !ps[0].SentinelBlock? {
        assert WithoutSentinels(ps)[1..] == rest;
      } else {
        assert WithoutSentinels(ps) == rest;
      }
    }
  }

  lemma {:induction false} PassKeepsShape(m: string, ps: seq<Piece>, eating: bool)
    requires AllReady(ps)
    ensures AllReady(Pass(m, ps, eating))
    decreases |ps|
  {
    if ps != [] {
      PassKeepsShape(m, ps[1..], true);
      PassKeepsShape(m, ps[1..], false);
    }
  }

  lemma {:induction false} PassesCompose(ps: seq<Piece>, eating1: bool, eating2: bool)
    requires AllReady(ps)
    ensures Render(Pass(LEGACY_OCW, Pass(LEGACY_TJ, ps, eating1), eating2))
         == Unlines(Survivors(ps, eating1 || eating2))
    ensures StillEating(LEGACY_TJ, ps, eating1) || StillEating(LEGACY_OCW, Pass(LEGACY_TJ, ps, eating1), eating2)
       <==> Eating(ps, eating1 || eating2)
    decreases |ps|
  {
    if ps != [] {
      var p, rest := ps[0], ps[1..];
      MarkersDistinct();
      if p.LegacyBlock? {
        if p.marker == LEGACY_TJ {
          PassesCompose(rest, true, eating2);
        } else {
          PassesCompose(rest, false, true);
          assert ([p] + Pass(LEGACY_TJ, rest, false))[1..] == Pass(LEGACY_TJ, rest, false);
        }
      } else if eating1 && IsExport(p.text) {
        PassesCompose(rest, true, eating2);
      } else {
        assert ([p] + Pass(LEGACY_TJ, rest, false))[1..] == Pass(LEGACY_TJ, rest, false);
        PassesCompose(rest, false, eating2 && IsExport(p.text));
        if !(eating2 && IsExport(p.text)) {
          var inner := Pass(LEGACY_OCW, Pass(LEGACY_TJ, rest, false), false);
          assert ([p] + inner)[1..] == inner;
          assert ([p.text] + Survivors(rest, false))[1..] == Survivors(rest, false);
        }
      }
    }
  }

  /** Stripping a file of lines and managed blocks, exactly, up to whatever text comes after them. */
  lemma {:induction false} StripPieces(ps: seq<Piece>, tail: string)
    requires AllWellFormed(ps)
    ensures exists first, second ::
              && (first || second <==> Eating(ps, false))
              && StripOtel(Render(ps) + tail)
                 == Unlines(Survivors(ps, false))
                    + TailOf(LEGACY_OCW, TailOf(LEGACY_TJ, StripSentinels(tail), first), second)
  {
    hide StripSentinels, StripLegacy, Pass, Survivors, WithoutSentinels, StillEating, TailOf, Eating;
    SentinelPass(ps, tail);
    SentinelsDoNotMatter(ps, false);
    LegacyPasses(WithoutSentinels(ps), StripSentinels(tail));
  }

  /** The two legacy passes over pieces without sentinel blocks. */
  lemma {:induction false} LegacyPasses(qs: seq<Piece>, tail: string)
    requires AllReady(qs)
    ensures exists first, second ::
              && (first || second <==> Eating(qs, false))
              && StripLegacy(LEGACY_OCW, StripLegacy(LEGACY_TJ, Render(qs) + tail))
                 == Unlines(Survivors(qs, false)) + TailOf(LEGACY_OCW, TailOf(LEGACY_TJ, tail, first), second)
  {
    hide StripLegacy, Pass, Survivors, StillEating, TailOf, Eating;
    var mid := Pass(LEGACY_TJ, qs, false);
    var first := StillEating(LEGACY_TJ, qs, false);
    LegacyPass(LEGACY_TJ, qs, tail);
    PassKeepsShape(LEGACY_TJ, qs, false);
    LegacyPass(LEGACY_OCW, mid, TailOf(LEGACY_TJ, tail, first));
    PassesCompose(qs, false, false);
    assert first || StillEating(LEGACY_OCW, mid, false) <==> Eating(qs, false);
  }

  /** Stripping a file of lines and managed blocks, exactly. */
  lemma {:induction false} StripRender(ps: seq<Piece>)
    requires AllWellFormed(ps)
    ensures StripOtel(Render(ps)) == Unlines(Survivors(ps, false))
  {
    hide StripOtel, Survivors, TailOf, Eating;
    StripPieces(ps, "");
    NothingAfter();
    assert Render(ps) + "" == Render(ps);
    assert Unlines(Survivors(ps, false)) + "" == Unlines(Survivors(ps, false));
  }

  lemma {:induction false} NothingAfter()
    ensures StripSentinels("") == ""
    ensures forall m, eating :: TailOf(m, "", eating) == ""
  {
    forall m, eating ensures TailOf(m, "", eating) == "" {
      EmptyText(m);
    }
  }

  lemma {:induction false} SurvivorsShort(ps: seq<Piece>, eating: bool)
    ensures |Survivors(ps, eating)| <= |Foreign(ps)|
    ensures |Survivors(ps, eating)| == |Foreign(ps)| ==> Survivors(ps, eating) == Foreign(ps)
    ensures |Survivors(ps, eating)| == |Foreign(ps)| <==> NothingToSwallow(ps, eating)
    decreases |ps|
  {
    if ps != [] {
      SurvivorsShort(ps[1..], true);
      SurvivorsShort(ps[1..], false);
    }
  }

  lemma {:induction false} NewlineCount(lines: seq<string>)
    requires forall i :: 0 <= i < |lines| ==> OneLine(lines[i])
    ensures Count("\n", Unlines(lines)) == |lines|
  {
    if lines != [] {
      NewlineCount(lines[1..]);
      CountSplit("\n", lines[0] + "\n", Unlines(lines[1..]));
      NewlineInLine(lines[0]);
    }
  }

  lemma {:induction false} NewlineInLine(x: string)
    requires OneLine(x)
    ensures Count("\n", x + "\n") == 1
  {
    if x == "" {
      assert (x + "\n")[1..] == "";
    } else {
      assert (x + "\n")[1..] == x[1..] + "\n" && (x + "\n")[0] == x[0];
      NewlineInLine(x[1..]);
    }
  }

  lemma {:induction false} LinesAreWellFormed(ps: seq<Piece>, eating: bool)
    requires AllWellFormed(ps)
    ensures forall i :: 0 <= i < |Survivors(ps, eating)| ==>
              OneLine(Survivors(ps, eating)[i]) && !EndsWithMarker(Survivors(ps, eating)[i])
    ensures forall i :: 0 <= i < |Foreign(ps)| ==> OneLine(Foreign(ps)[i])
    decreases |ps|
  {
    if ps != [] {
      assert WellFormed(ps[0]);
      LinesAreWellFormed(ps[1..], true);
      LinesAreWellFormed(ps[1..], false);
      LinesAreWellFormed(ps[1..], eating);
    }
  }

  /** Every line of the user's survives, in order and unchanged, exactly when there is nothing to swallow. */
  lemma {:induction false} ForeignLinesSurvive(ps: seq<Piece>)
    requires AllWellFormed(ps)
    ensures StripOtel(Render(ps)) == Unlines(Foreign(ps)) <==> NothingToSwallow(ps, false)
  {
    hide StripOtel;
    StripRender(ps);
    SurvivorsShort(ps, false);
    LinesAreWellFormed(ps, false);
    NewlineCount(Survivors(ps, false));
    NewlineCount(Foreign(ps));
  }

  /** Such a file leaves no marker line behind, so every result about repeated runs applies to it. */
  lemma {:induction false} RenderedFilesAreRepaired(ps: seq<Piece>)
    requires AllWellFormed(ps)
    ensures NoLeftover(Render(ps))
  {
    hide StripOtel;
    StripRender(ps);
    LinesAreWellFormed(ps, false);
    UnlinesAppend(Survivors(ps, false), "");
    assert "" + "\n" == "\n";
    KeptOfCleanLines(Render(ps), Survivors(ps, false) + [""]);
  }

  lemma {:induction false} UnlinesAppend(lines: seq<string>, x: string)
    ensures Unlines(lines + [x]) == Unlines(lines) + x + "\n"
  {
    if lines == [] {
      assert [] + [x] == [x];
      assert Unlines([x]) == x + "\n" + Unlines([]);
    } else {
      assert (lines + [x])[1..] == lines[1..] + [x];
      UnlinesAppend(lines[1..], x);
    }
  }

  lemma {:induction false} NoMarkerAtAll()
    ensures !EndsWithMarker("")
  {}

  lemma {:induction false} KeptOfCleanLines(t: string, lines: seq<string>)
    requires StripOtel(t) + "\n" == Unlines(lines)
    requires forall i :: 0 <= i < |lines| ==> OneLine(lines[i]) && !EndsWithMarker(lines[i])
    ensures NoLeftover(t)
  {
    hide StripOtel, Occurs;
    var u := StripOtel(t);
    MarkerShapes();
    LinesHaveNoMarker(OTEL_START, lines);
    LinesHaveNoMarker(LEGACY_TJ, lines);
    LinesHaveNoMarker(LEGACY_OCW, lines);
    if Blank(u) {
      NewlineIsFree();
      assert Kept(t) + "\n" == "\n";
    } else {
      StrippedTail(u);
      RStripShape(u);
      var k := |RStripNewlines(u)|;
      FreePrefix(u + "\n", k + 1);
      assert (u + "\n")[..k + 1] == RStripNewlines(u) + "\n";
    }
  }

  lemma {:induction false} FreePrefix(t: string, n: nat)
    requires n <= |t| && OtelFree(t)
    ensures OtelFree(t[..n])
  {
    hide Occurs;
    FreeOfPrefix(OTEL_START + "\n", t, n);
    FreeOfPrefix(LEGACY_TJ + "\n", t, n);
    FreeOfPrefix(LEGACY_OCW + "\n", t, n);
  }

  /** A start marker that no end marker follows swallows the fresh block on the next run. */
  lemma {:induction false} OrphanMarkerBreaksRotation(b1: string, b2: string)
    requires IsOtelBlock(b1)
    ensures WriteOtel(b2, WriteOtel(b1, OTEL_START)) != WriteOtel(b2, OTEL_START)
  {
    SecretAbsorbed(b1, b2, OTEL_START);
    OrphanIsKept();
  }

  lemma {:induction false} OrphanIsKept()
    ensures !OtelFree(Kept(OTEL_START) + "\n")
  {
    hide Occurs, RStripNewlines, Blank, StripOtel;
    TooShort(OTEL_START + "\n", OTEL_START);
    OtherMarkers();
    StripNothing(OTEL_START);
    KeepsWhole(OTEL_START);
    MarkerShapes();
    HashInHash(OTEL_START, OTEL_START);
  }

  lemma {:induction false} KeepsWhole(t: string)
    requires HashLine(t)
    ensures !Blank(t) && RStripNewlines(t) == t
  {
    assert !IsSpace(t[0]);
  }

  lemma {:induction false} OtherMarkers()
    ensures !Occurs(LEGACY_TJ + "\n", OTEL_START) && !Occurs(LEGACY_OCW + "\n", OTEL_START)
  {
    hide Occurs;
    MarkerShapes();
    assert OTEL_START[2] == '>' && LEGACY_TJ[2] == 't' && LEGACY_OCW[2] == 'o';
    NotInMarker(LEGACY_TJ, OTEL_START);
    NotInMarker(LEGACY_OCW, OTEL_START);
  }

  lemma {:induction false} NotInMarker(m: string, t: string)
    requires HashLine(m) && HashLine(t) && |m| > 2 && |t| > 2 && m[2] != t[2]
    ensures !Occurs(m + "\n", t)
  {
    OccursOnlyAtHead(m + "\n", t);
  }

  /** A user's `export` line right under a legacy block goes with it. */
  lemma {:induction false} SwallowedExport()
    ensures var ps := [LegacyBlock(LEGACY_TJ, []), Line("export EDITOR=vi")];
            AllWellFormed(ps) && Foreign(ps) == ["export EDITOR=vi"] && StripOtel(Render(ps)) == ""
  {
    hide StripOtel;
    var line := Line("export EDITOR=vi");
    var ps := [LegacyBlock(LEGACY_TJ, []), line];
    MarkerShapes();
    NoHashNoEnd(OTEL_START, line.text);
    NoHashNoEnd(LEGACY_TJ, line.text);
    NoHashNoEnd(LEGACY_OCW, line.text);
    assert ps[1..] == [line] && [line][1..] == [];
    StripRender(ps);
    assert Survivors([line], true) == [];
    assert Foreign([line]) == [line.text];
  }
}

/**
 The round trip of files that hold managed text of earlier runs and releases: OTEL blocks, legacy
 blocks and `claude` wrappers, in any number and order among the user's own lines.
 */
module RcWrapped {
  import opened TextScan
  import opened Refresh
  import opened ShellRc
  import opened RcPipeline
  import opened RcBlocks
  import opened RcLines
  import opened RcLastLine

  /** A wrapper holds the shell code of whatever release wrote it. */
  datatype Part = Own(piece: Piece) | Wrapper(code: seq<string>)

  ghost predicate WellFormedPart(p: Part) {
    match p
    case Own(q) => WellFormed(q) && (q.Line? ==> !Occurs(WRAPPER_MARKER, q.text + "\n"))
    case Wrapper(code) => IsWrapperCode(code)
  }

  ghost predicate AllParts(ps: seq<Part>) {
    forall i :: 0 <= i < |ps| ==> WellFormedPart(ps[i])
  }

  function PartText(p: Part): string {
    match p
    case Own(q) => Text(q)
    case Wrapper(code) => WrapperBlock(code)
  }

  function RenderParts(ps: seq<Part>): string {
    if ps == [] then "" else PartText(ps[0]) + RenderParts(ps[1..])
  }

  /** The user's own lines. */
  function OwnLines(ps: seq<Part>): seq<string> {
    if ps == [] then []
    else (match ps[0] case Own(Line(x)) => [x] case _ => []) + OwnLines(ps[1..])
  }

  /**
   The user's lines that come through.  A wrapper, like a line of the user's, ends the stretch in
   which `export` lines go with a legacy block.
   */
  function LinesLeft(ps: seq<Part>, eating: bool): seq<string> {
    if ps == [] then []
    else match ps[0]
         case Own(Line(x)) =>
           if eating && IsExport(x) then LinesLeft(ps[1..], true) else [x] + LinesLeft(ps[1..], false)
         case Own(SentinelBlock(_)) => LinesLeft(ps[1..], eating)
         case Own(LegacyBlock(_, _)) => LinesLeft(ps[1..], true)
         case Wrapper(_) => LinesLeft(ps[1..], false)
  }

  /** No `export` line of the user's comes to follow a legacy block. */
  predicate Undisturbed(ps: seq<Part>, eating: bool) {
    ps == [] ||
    match ps[0]
    case Own(Line(x)) => !(eating && IsExport(x)) && Undisturbed(ps[1..], false)
    case Own(SentinelBlock(_)) => Undisturbed(ps[1..], eating)
    case Own(LegacyBlock(_, _)) => Undisturbed(ps[1..], true)
    case Wrapper(_) => Undisturbed(ps[1..], false)
  }

  function Wrappers(ps: seq<Part>): nat {
    if ps == [] then 0 else (if ps[0].Wrapper? then 1 else 0) + Wrappers(ps[1..])
  }

  /** What is left of the file; without a wrapper in it, nothing but white space counts as nothing. */
  function Remains(ps: seq<Part>, lines: seq<string>): string {
    if Wrappers(ps) == 0 then Bare(Unlines(lines)) else RStripNewlines(Unlines(lines))
  }

  // ---------------------------------------------------------------------
  // Wrappers as lines
  // ---------------------------------------------------------------------

  function WrapperLines(code: seq<string>): seq<string> {
    [WRAPPER_MARKER] + code + [WRAPPER_END]
  }

  function AsLines(lines: seq<string>): seq<Piece> {
    seq(|lines|, i requires 0 <= i < |lines| => Line(lines[i]))
  }

  function PartPieces(p: Part): seq<Piece> {
    match p
    case Own(q) => [q]
    case Wrapper(code) => AsLines(WrapperLines(code))
  }

  function Expand(ps: seq<Part>): seq<Piece> {
    if ps == [] then [] else PartPieces(ps[0]) + Expand(ps[1..])
  }

  lemma {:induction false} RenderJoin(a: seq<Piece>, b: seq<Piece>)
    ensures Render(a + b) == Render(a) + Render(b)
  {
    if a == [] {
      assert a + b == b;
    } else {
      assert (a + b)[1..] == a[1..] + b;
      RenderJoin(a[1..], b);
    }
  }

  lemma {:induction false} RenderLines(lines: seq<string>)
    ensures Render(AsLines(lines)) == Unlines(lines)
  {
    if lines != [] {
      assert AsLines(lines)[1..] == AsLines(lines[1..]);
      RenderLines(lines[1..]);
    }
  }

  lemma {:induction false} OneUnline(x: string)
    ensures Unlines([x]) == x + "\n"
  {
    assert [x][1..] == [];
  }

  lemma {:induction false} WrapperText(code: seq<string>)
    ensures WrapperBlock(code) == Unlines(WrapperLines(code))
  {
    UnlinesJoin([WRAPPER_MARKER] + code, [WRAPPER_END]);
    UnlinesJoin([WRAPPER_MARKER], code);
    OneUnline(WRAPPER_MARKER);
    OneUnline(WRAPPER_END);
  }

  lemma {:induction false} MarkersAreLines()
    ensures forall m :: m == WRAPPER_MARKER || m == WRAPPER_END ==> OneLine(m) && !EndsWithMarker(m) && !IsExport(m)
  {
    hide EndsWith;
    MarkerShapes();
    MarkersDiffer();
    forall m | m == WRAPPER_MARKER || m == WRAPPER_END
      ensures OneLine(m) && !EndsWithMarker(m) && !IsExport(m)
    {
      HashEndsWithHash(m, OTEL_START);
      HashEndsWithHash(m, LEGACY_TJ);
      HashEndsWithHash(m, LEGACY_OCW);
      assert "export "[0] == 'e';
    }
  }

  lemma {:induction false} ExpandText(ps: seq<Part>)
    requires AllParts(ps)
    ensures Render(Expand(ps)) == RenderParts(ps)
    ensures AllWellFormed(Expand(ps))
  {
    if ps != [] {
      var head := PartPieces(ps[0]);
      ExpandText(ps[1..]);
      RenderJoin(head, Expand(ps[1..]));
      PartIsPieces(ps[0]);
    }
  }

  lemma {:induction false} PartIsPieces(p: Part)
    requires WellFormedPart(p)
    ensures Render(PartPieces(p)) == PartText(p) && AllWellFormed(PartPieces(p))
  {
    hide Occurs, EndsWithMarker;
    match p
    case Own(q) => assert [q][1..] == [] && Text(q) + "" == Text(q);
    case Wrapper(code) =>
      RenderLines(WrapperLines(code));
      WrapperText(code);
      MarkersAreLines();
  }

  // ---------------------------------------------------------------------
  // Stripping
  // ---------------------------------------------------------------------

  lemma {:induction false} LinesSurvive(lines: seq<string>, qs: seq<Piece>)
    ensures Survivors(AsLines(lines) + qs, false) == lines + Survivors(qs, false)
    ensures Eating(AsLines(lines) + qs, false) == Eating(qs, false)
    ensures NothingToSwallow(AsLines(lines) + qs, false) == NothingToSwallow(qs, false)
  {
    if lines == [] {
      assert AsLines(lines) + qs == qs;
    } else {
      assert (AsLines(lines) + qs)[1..] == AsLines(lines[1..]) + qs;
      LinesSurvive(lines[1..], qs);
    }
  }

  lemma {:induction false} WrapperSurvives(code: seq<string>, qs: seq<Piece>, eating: bool)
    ensures Survivors(AsLines(WrapperLines(code)) + qs, eating) == WrapperLines(code) + Survivors(qs, false)
    ensures Eating(AsLines(WrapperLines(code)) + qs, eating) == Eating(qs, false)
  {
    MarkersAreLines();
    var lines := WrapperLines(code);
    LinesSurvive(lines[1..], qs);
    assert (AsLines(lines) + qs)[1..] == AsLines(lines[1..]) + qs;
    assert lines == [WRAPPER_MARKER] + lines[1..];
  }

  lemma {:induction false} LeftIsShort(ps: seq<Part>, eating: bool)
    ensures |LinesLeft(ps, eating)| <= |OwnLines(ps)|
    ensures LinesLeft(ps, eating) == OwnLines(ps) <==> Undisturbed(ps, eating)
    ensures |LinesLeft(ps, eating)| == |OwnLines(ps)| ==> Undisturbed(ps, eating)
    decreases |ps|
  {
    if ps != [] {
      LeftIsShort(ps[1..], true);
      LeftIsShort(ps[1..], false);
      LeftIsShort(ps[1..], eating);
    }
  }

  // ---------------------------------------------------------------------
  // Removing and counting the wrappers
  // ---------------------------------------------------------------------

  /** The lines in front of the OTEL block, wrappers included. */
  function Standing(ps: seq<Part>, eating: bool): seq<string> { Survivors(Expand(ps), eating) }

  lemma {:induction false} StandingStep(ps: seq<Part>, eating: bool)
    requires ps != []
    ensures Standing(ps, eating) ==
            match ps[0]
            case Own(Line(x)) =>
              if eating && IsExport(x) then Standing(ps[1..], true) else [x] + Standing(ps[1..], false)
            case Own(SentinelBlock(_)) => Standing(ps[1..], eating)
            case Own(LegacyBlock(_, _)) => Standing(ps[1..], true)
            case Wrapper(code) => WrapperLines(code) + Standing(ps[1..], false)
  {
    if ps[0].Wrapper? {
      WrapperSurvives(ps[0].code, Expand(ps[1..]), eating);
    } else {
      assert Expand(ps)[1..] == Expand(ps[1..]);
    }
  }

  lemma {:induction false} WrapperHere(code: seq<string>, more: string)
    requires IsWrapperCode(code)
    ensures ReplaceBlocks(WRAPPER_MARKER, WRAPPER_END, NewlineOrEnd, "", WrapperBlock(code) + more)
         == ReplaceBlocks(WRAPPER_MARKER, WRAPPER_END, NewlineOrEnd, "", more)
    ensures Blocks(WRAPPER_MARKER, WRAPPER_END, WrapperBlock(code) + more)
         == 1 + Blocks(WRAPPER_MARKER, WRAPPER_END, more)
    ensures Occurs(WRAPPER_MARKER, WrapperBlock(code) + more)
  {
    hide ReplaceBlocks, Occurs, BlockHere;
    var w := WrapperBlock(code);
    assert IsWrapper(w);
    var body := WrapperFacts(w);
    MarkerShapes();
    HashLineAnchors(WRAPPER_END);
    ReplaceOne(WRAPPER_MARKER, WRAPPER_END, NewlineOrEnd, "", body, more);
    BlockFound(WRAPPER_MARKER, WRAPPER_END, Newline, body, more);
    assert (w + more)[|w|..] == more;
    AtHead(WRAPPER_MARKER, w + more);
  }

  lemma {:induction false} LineHere(x: string, more: string)
    requires OneLine(x) && !Occurs(WRAPPER_MARKER, x + "\n")
    ensures ReplaceBlocks(WRAPPER_MARKER, WRAPPER_END, NewlineOrEnd, "", x + "\n" + more)
         == x + "\n" + ReplaceBlocks(WRAPPER_MARKER, WRAPPER_END, NewlineOrEnd, "", more)
    ensures Blocks(WRAPPER_MARKER, WRAPPER_END, x + "\n" + more) == Blocks(WRAPPER_MARKER, WRAPPER_END, more)
    ensures Occurs(WRAPPER_MARKER, x + "\n" + more) <==> Occurs(WRAPPER_MARKER, more)
  {
    hide ReplaceBlocks, Occurs;
    MarkersAreAnchors();
    CopyLines(WRAPPER_MARKER, WRAPPER_END, NewlineOrEnd, "", x + "\n", more);
    BlocksBehind(WRAPPER_MARKER, WRAPPER_END, x + "\n", more);
    MarkerInFront(x + "\n", more);
  }

  /** Whole lines without a start marker take no part in the blocks behind them. */
  lemma {:induction false} BlocksBehind(s: string, e: string, a: string, b: string)
    requires Anchor(s) && Complete(a) && !Occurs(s, a)
    ensures Blocks(s, e, a + b) == Blocks(s, e, b)
  {
    if a == [] {
      assert a + b == b;
    } else {
      LineBound(s, a, b);
      assert (a + b)[1..] == a[1..] + b;
      BlocksBehind(s, e, a[1..], b);
    }
  }

  lemma {:induction false} UnwireStanding(ps: seq<Part>, eating: bool)
    requires AllParts(ps)
    ensures var t := Unlines(Standing(ps, eating));
            && ReplaceBlocks(WRAPPER_MARKER, WRAPPER_END, NewlineOrEnd, "", t) == Unlines(LinesLeft(ps, eating))
            && Blocks(WRAPPER_MARKER, WRAPPER_END, t) == Wrappers(ps)
            && (Occurs(WRAPPER_MARKER, t) <==> Wrappers(ps) > 0)
    decreases |ps|
  {
    hide ReplaceBlocks, Occurs, Standing, Blocks, IsExport;
    if ps == [] {
      NothingStands(eating);
    } else {
      StandingStep(ps, eating);
      assert WellFormedPart(ps[0]);
      var rest := ps[1..];
      match ps[0]
      case Own(Line(x)) =>
        if eating && IsExport(x) {
          UnwireStanding(rest, true);
        } else {
          UnwireStanding(rest, false);
          UnlinesCons(x, Standing(rest, false));
          UnlinesCons(x, LinesLeft(rest, false));
          LineHere(x, Unlines(Standing(rest, false)));
        }
      case Own(SentinelBlock(_)) => UnwireStanding(rest, eating);
      case Own(LegacyBlock(_, _)) => UnwireStanding(rest, true);
      case Wrapper(code) =>
        UnwireStanding(rest, false);
        UnlinesJoin(WrapperLines(code), Standing(rest, false));
        WrapperText(code);
        WrapperHere(code, Unlines(Standing(rest, false)));
    }
  }

  lemma {:induction false} UnlinesCons(x: string, lines: seq<string>)
    ensures Unlines([x] + lines) == x + "\n" + Unlines(lines)
  {
    assert ([x] + lines)[1..] == lines;
  }

  lemma {:induction false} NothingStands(eating: bool)
    ensures Standing([], eating) == []
    ensures ReplaceBlocks(WRAPPER_MARKER, WRAPPER_END, NewlineOrEnd, "", "") == ""
    ensures Blocks(WRAPPER_MARKER, WRAPPER_END, "") == 0 && !Occurs(WRAPPER_MARKER, "")
  {}

  // ---------------------------------------------------------------------
  // From the lines to the file
  // ---------------------------------------------------------------------

  predicate Newlines(n: string) { forall k :: 0 <= k < |n| ==> n[k] == '\n' }

  lemma {:induction false} RStripSplit(v: string) returns (n: string)
    ensures v == RStripNewlines(v) + n && Newlines(n)
  {
    if v != "" && v[|v| - 1] == '\n' {
      n := RStripSplit(v[..|v| - 1]);
      n := n + "\n";
    } else {
      n := "";
    }
  }

  lemma {:induction false} RStripMore(x: string, n: string)
    requires Newlines(n)
    ensures RStripNewlines(x + n) == RStripNewlines(x)
  {
    if n == "" {
      assert x + n == x;
    } else {
      assert (x + n)[..|x + n| - 1] == x + n[..|n| - 1];
      RStripMore(x, n[..|n| - 1]);
    }
  }

  /** Newlines behind whole lines take no part in what is done to the wrappers. */
  lemma {:induction false} NewlinesBehind(x: string, n: string)
    requires Complete(x) && Newlines(n)
    ensures var left := ReplaceBlocks(WRAPPER_MARKER, WRAPPER_END, Newline, "", x);
            ReplaceBlocks(WRAPPER_MARKER, WRAPPER_END, NewlineOrEnd, "", x + n) == left + n
    ensures Blocks(WRAPPER_MARKER, WRAPPER_END, x + n) == Blocks(WRAPPER_MARKER, WRAPPER_END, x)
    ensures Occurs(WRAPPER_MARKER, x + n) <==> Occurs(WRAPPER_MARKER, x)
  {
    hide ReplaceBlocks, Occurs, FindEnd;
    MarkerShapes();
    MarkersAreAnchors();
    HashLineAnchors(WRAPPER_END);
    assert '#' !in n;
    OccursNeedsHead(WRAPPER_MARKER, n);
    OccursNeedsHead(WRAPPER_END, n);
    FindEndNeedsMarker(WRAPPER_END, NewlineOrEnd, n);
    FindEndNeedsMarker(WRAPPER_END, Newline, n);
    ReplaceSplit(WRAPPER_MARKER, WRAPPER_END, NewlineOrEnd, "", x, n);
    BlocksSplit(WRAPPER_MARKER, WRAPPER_END, x, n);
    MarkerInFront(x, n);
  }

  /** What is kept, whole lines again, differs from the lines in newlines at the end only. */
  lemma {:induction false} FrontLikeLines(t: string, v: string)
    requires Kept(t) == Bare(v) && !Blank(v) && Complete(v)
    ensures RStripNewlines(UnwireWrapper(Front(t)))
         == RStripNewlines(ReplaceBlocks(WRAPPER_MARKER, WRAPPER_END, NewlineOrEnd, "", v))
    ensures Blocks(WRAPPER_MARKER, WRAPPER_END, Front(t)) == Blocks(WRAPPER_MARKER, WRAPPER_END, v)
    ensures Occurs(WRAPPER_MARKER, Front(t)) <==> Occurs(WRAPPER_MARKER, v)
  {
    hide ReplaceBlocks, Occurs, StripOtel, Blocks, RStripNewlines, UnwireWrapper;
    KeptShape("", t);
    RStripBlank(v);
    var n := RStripSplit(v);
    RStripShape(v);
    var x := RStripNewlines(v) + "\n";
    assert n != "" && v == x + n[1..];
    assert Front(t) == x + "\n";
    NewlinesBehind(x, "\n");
    NewlinesBehind(x, n[1..]);
    UnwireEqualsRemoval(Front(t));
    var left := ReplaceBlocks(WRAPPER_MARKER, WRAPPER_END, Newline, "", x);
    RStripMore(left, "\n");
    RStripMore(left, n[1..]);
  }

  /** A file that strips to these lines, up to newlines at the end. */
  ghost predicate StripsTo(t: string, ps: seq<Part>) {
    NoLeftover(t) && AllParts(ps) && Kept(t) == Bare(Unlines(Standing(ps, false)))
  }

  lemma {:induction false} UnwiredFront(t: string, ps: seq<Part>)
    requires StripsTo(t, ps)
    ensures RStripNewlines(UnwireWrapper(Front(t))) == Remains(ps, LinesLeft(ps, false))
    ensures Occurs(WRAPPER_MARKER, Front(t)) <==> Wrappers(ps) > 0
    ensures Wrappers(ps) > 0 ==> Blocks(WRAPPER_MARKER, WRAPPER_END, Front(t)) == Wrappers(ps)
  {
    hide ReplaceBlocks, Occurs, Blocks, StripOtel, RStripNewlines, Unlines, Standing, LinesLeft, UnwireWrapper;
    var v := Unlines(Standing(ps, false));
    UnwireStanding(ps, false);
    UnlinesComplete(Standing(ps, false));
    if Wrappers(ps) > 0 {
      MarkerShapes();
      HasHash(WRAPPER_MARKER, v);
    } else {
      NotThere(v);
    }
    if Blank(v) {
      NothingStands(false);
      NothingToUnwire("");
    } else {
      FrontLikeLines(t, v);
    }
  }

  lemma {:induction false} NotThere(v: string)
    requires !Occurs(WRAPPER_MARKER, v)
    ensures ReplaceBlocks(WRAPPER_MARKER, WRAPPER_END, NewlineOrEnd, "", v) == v
    ensures RStripNewlines("") == ""
  {
    MarkerShapes();
    CopyAll(WRAPPER_MARKER, WRAPPER_END, NewlineOrEnd, "", v);
  }

  lemma {:induction false} ComesBack(runs: seq<Run>, t: string, ps: seq<Part>)
    requires runs != [] && Usable(runs) && StripsTo(t, ps)
    ensures RStripNewlines(Uninstall(OnboardAll(runs, t))) == Remains(ps, LinesLeft(ps, false))
    ensures Undisturbed(ps, false) ==> RStripNewlines(Uninstall(OnboardAll(runs, t))) == Remains(ps, OwnLines(ps))
  {
    hide Uninstall, OnboardAll, UnwireWrapper, NoLeftover, Front, Kept, Remains, Usable;
    UninstallUndoes(runs, t);
    UnwiredFront(t, ps);
    LeftIsShort(ps, false);
  }

  lemma {:induction false} WrappersOf(runs: seq<Run>, t: string, ps: seq<Part>)
    requires runs != [] && Usable(runs) && StripsTo(t, ps)
    ensures Count(runs[|runs| - 1].wrapper, OnboardAll(runs, t)) == if Wrappers(ps) == 0 then 1 else Wrappers(ps)
  {
    hide OnboardAll, NoLeftover, Front, Kept, Usable, Occurs, Blocks, Count;
    WrapperBlocks(runs, t);
    UnwiredFront(t, ps);
  }

  // ---------------------------------------------------------------------
  // The results
  // ---------------------------------------------------------------------

  lemma {:induction false} PartsStrip(ps: seq<Part>)
    requires AllParts(ps)
    ensures StripsTo(RenderParts(ps), ps)
  {
    hide StripOtel, Survivors, WellFormedPart, WellFormed, NoLeftover;
    ExpandText(ps);
    StripRender(Expand(ps));
    RenderedFilesAreRepaired(Expand(ps));
  }

  /**
   The round trip.  After n >= 1 onboards with any blocks and wrappers and an uninstall, the user's
   lines that survive stripping are left, up to newlines at the end: all of them if no `export` line
   follows a legacy block.
   */
  lemma {:induction false} LinesComeBack(runs: seq<Run>, ps: seq<Part>)
    requires runs != [] && Usable(runs) && AllParts(ps)
    ensures RStripNewlines(Uninstall(OnboardAll(runs, RenderParts(ps)))) == Remains(ps, LinesLeft(ps, false))
    ensures Undisturbed(ps, false) ==>
              RStripNewlines(Uninstall(OnboardAll(runs, RenderParts(ps)))) == Remains(ps, OwnLines(ps))
  {
    hide Uninstall, OnboardAll, Remains, StripsTo, Usable;
    PartsStrip(ps);
    ComesBack(runs, RenderParts(ps), ps);
  }

  /** After every run the file holds its wrapper once exactly if there was at most one before. */
  lemma {:induction false} OneWrapper(runs: seq<Run>, ps: seq<Part>)
    requires runs != [] && Usable(runs) && AllParts(ps)
    ensures Count(runs[|runs| - 1].wrapper, OnboardAll(runs, RenderParts(ps))) == 1 <==> Wrappers(ps) <= 1
  {
    hide OnboardAll, StripsTo, Usable, Count;
    PartsStrip(ps);
    WrappersOf(runs, RenderParts(ps), ps);
  }

  /** The last part without its final newline. */
  function OpenPart(p: Part): (r: string)
    ensures r + "\n" == PartText(p)
  {
    match p
    case Own(q) => OpenText(q)
    case Wrapper(code) => WRAPPER_MARKER + ("\n" + Unlines(code)) + WRAPPER_END
  }

  lemma {:induction false} SurvivorsAppend(qs: seq<Piece>, q: Piece, eating: bool)
    ensures Survivors(qs + [q], eating)
         == Survivors(qs, eating) + if q.Line? && !(Eating(qs, eating) && IsExport(q.text)) then [q.text] else []
    decreases |qs|
  {
    if qs == [] {
      assert [] + [q] == [q] && [q][1..] == [];
    } else {
      assert (qs + [q])[1..] == qs[1..] + [q];
      SurvivorsAppend(qs[1..], q, true);
      SurvivorsAppend(qs[1..], q, false);
      SurvivorsAppend(qs[1..], q, eating);
    }
  }

  /** The last line's newline makes no difference to what is kept. */
  lemma {:induction false} OpenStrips(qs: seq<Piece>, q: Piece)
    requires AllWellFormed(qs) && WellFormed(q) && (q.LegacyBlock? ==> q.exports != [])
    ensures var t := Render(qs) + OpenText(q);
            NoLeftover(t) && Kept(t) == Bare(Unlines(Survivors(qs + [q], false)))
  {
    hide StripOtel, Survivors, Eating, NoLeftover, OpenText, WellFormed;
    var t, lines := Render(qs) + OpenText(q), Survivors(qs, false);
    StripOpen(qs, q);
    OpenFilesAreRepaired(qs, q);
    SurvivorsAppend(qs, q, false);
    if q.Line? && !(Eating(qs, false) && IsExport(q.text)) {
      UnlinesAppend(lines, q.text);
      BareNewline(StripOtel(t));
    } else {
      assert OpenRest(q, Eating(qs, false)) == "";
      assert lines + [] == lines && Unlines(lines) + "" == Unlines(lines);
    }
  }

  lemma {:induction false} BareNewline(u: string)
    ensures Bare(u + "\n") == Bare(u)
  {
    RStripAppend(u);
    assert IsSpace('\n');
    assert Blank(u + "\n") ==> Blank(u) by {
      assert forall k :: 0 <= k < |u| ==> (u + "\n")[k] == u[k];
    }
  }

  lemma {:induction false} ExpandAppend(ps: seq<Part>, p: Part)
    ensures Expand(ps + [p]) == Expand(ps) + PartPieces(p)
  {
    if ps == [] {
      assert [] + [p] == [p] && [p][1..] == [];
    } else {
      assert (ps + [p])[1..] == ps[1..] + [p];
      ExpandAppend(ps[1..], p);
    }
  }

  lemma {:induction false} OpenParts(ps: seq<Part>, p: Part)
    requires AllParts(ps) && WellFormedPart(p)
    requires p.Own? && p.piece.LegacyBlock? ==> p.piece.exports != []
    ensures StripsTo(RenderParts(ps) + OpenPart(p), ps + [p])
  {
    hide Survivors, NoLeftover, Kept, WellFormedPart, WellFormed, OpenText, AllWellFormed, Render, RenderParts,
         PartPieces, OpenPart, Expand, Bare;
    OpenPieces(p);
    var all := PartPieces(p);
    var last := all[|all| - 1];
    var front := all[..|all| - 1];
    ExpandText(ps);
    ExpandAppend(ps, p);
    var qs := Expand(ps) + front;
    assert AllWellFormed(qs) by { JoinWellFormed(Expand(ps), front); }
    RenderJoin(Expand(ps), front);
    assert qs + [last] == Expand(ps) + (front + [last]);
    ThreeTexts(RenderParts(ps), Render(front), OpenText(last));
    OpenStrips(qs, last);
  }

  lemma {:induction false} ThreeTexts(a: string, b: string, c: string)
    ensures a + b + c == a + (b + c)
  {}

  lemma {:induction false} JoinWellFormed(a: seq<Piece>, b: seq<Piece>)
    requires AllWellFormed(a) && AllWellFormed(b)
    ensures AllWellFormed(a + b)
  {}

  lemma {:induction false} OpenPieces(p: Part)
    requires WellFormedPart(p)
    ensures var all := PartPieces(p);
            && all != [] && AllWellFormed(all[..|all| - 1]) && WellFormed(all[|all| - 1])
            && all == all[..|all| - 1] + [all[|all| - 1]]
            && Render(all[..|all| - 1]) + OpenText(all[|all| - 1]) == OpenPart(p)
            && (all[|all| - 1].LegacyBlock? ==> p.Own? && p.piece == all[|all| - 1])
  {
    hide Occurs, OpenText, WellFormed, OpenPart, WrapperLines, AsLines, Render, CodeLine;
    var all := PartPieces(p);
    PartIsPieces(p);
    match p
    case Own(q) => OpenOwn(q);
    case Wrapper(code) => OpenWrapper(code);
  }

  lemma {:induction false} OpenOwn(q: Piece)
    ensures [q][..0] == [] && Render([]) + OpenText(q) == OpenPart(Own(q))
  {}

  lemma {:induction false} OpenWrapper(code: seq<string>)
    ensures var all, n := AsLines(WrapperLines(code)), |code| + 1;
            && |all| == n + 1 && all[n] == Line(WRAPPER_END)
            && Render(all[..n]) + OpenText(all[n]) == OpenPart(Wrapper(code))
  {
    hide OpenText, Render;
    var lines := [WRAPPER_MARKER] + code;
    assert AsLines(WrapperLines(code))[..|code| + 1] == AsLines(lines);
    RenderLines(lines);
    UnlinesCons(WRAPPER_MARKER, code);
    OpenLineText(WRAPPER_END);
    ThreeTexts(WRAPPER_MARKER, "\n", Unlines(code));
  }

  lemma {:induction false} OpenLineText(x: string)
    ensures OpenText(Line(x)) == x
  {}

  /** The round trip of a file whose last line has no newline: as if it had one. */
  lemma {:induction false} LinesComeBackOpen(runs: seq<Run>, ps: seq<Part>, p: Part)
    requires runs != [] && Usable(runs) && AllParts(ps) && WellFormedPart(p)
    requires p.Own? && p.piece.LegacyBlock? ==> p.piece.exports != []
    ensures var left := RStripNewlines(Uninstall(OnboardAll(runs, RenderParts(ps) + OpenPart(p))));
            && left == Remains(ps + [p], LinesLeft(ps + [p], false))
            && (Undisturbed(ps + [p], false) ==> left == Remains(ps + [p], OwnLines(ps + [p])))
  {
    hide Uninstall, OnboardAll, Remains, StripsTo, Usable, OpenPart;
    OpenParts(ps, p);
    ComesBack(runs, RenderParts(ps) + OpenPart(p), ps + [p]);
  }
}
